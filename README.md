# Sprite editor core, modelled in Dafny

This project models the in-memory core of a small pixel-art sprite editor
written in C (`src/main.c`). The editor keeps three things:

- a 640×360 pixel buffer;
- 64 colour buttons, one per palette entry, in four columns of sixteen;
- a sheet of 128 sprite tiles in eight columns, each an 8×8 grid of palette
  indices.

Each frame it does two things. First, while the mouse button is held, it
hit-tests every button and every tile in array order. The last hit of each
becomes current and is the only one selected again. A click that maps to a
cell of the 192×192 canvas paints that cell of the current tile in the
current colour. Second, it redraws the palette, the canvas (the current tile
at 24×) and the sprite sheet (every tile at 2×, the selected one with a
one-pixel highlight ring).

The model follows the code's imperative form:

- The pixel buffer, the buttons and the sheet are Dafny `array`s.
- main's state is the class `Editor.Editor`. Its fields are those arrays plus
  the current colour and the current sprite.
- Each C routine is a method with the C routine's own loops. Each method's
  postcondition states the whole new buffer or state point by point.
- What each element looks like is a specification function: `ButtonPixel`,
  `SpritePixel`, `CanvasPixel`, `PalettePixel`, `SheetPixel`. Lemmas about
  these functions state the editor's promises: borders, nearest-neighbour
  zoom, last-hit-wins selection, painting a cell and reading it back, and the
  canvas agreeing with the thumbnail.

Modules:

- `Geometry`: the screen, flat buffer indices, and C's truncating `/` and `%`.
- `Layout`: constants, entities, and where the start-up code puts every
  button and tile.
- `Selection`: hit tests, the "last hit wins" scan, and the mouse-to-cell
  mapping.
- `Raster`: the pictures and the draw routines.
- `Editor`: start-up, the click step and the redraw.
- `Scenario`: a session from start-up, built from the methods above.

Where the code differs from its comments or from its stated intent, the model follows the code:

- A click paints when `(mouse - corner) / 24`, truncated as C does, lands in
  `[0, 8)`, not only when the mouse is over the canvas. The 23 pixels left of
  the canvas and the 23 above it paint column 0 and row 0
  (`Selection.PaintsCellExactly`, `Selection.PixelLeftOfCanvas`).
- "Exactly one button and one tile selected" holds only after the first
  click. At start-up nothing is selected. `Editor.Editor.Valid` therefore
  states "at most the current one", and `Editor.Editor.ProcessClick` states
  "exactly the current one".
- The comment at line 120 says the screen is filled with white. The code
  fills it with `0x232324ff`, and so does the model (`Layout.BACKGROUND`).

## Model

| member | source | states |
|---|---|---|
| Geometry.CDiv | src/main.c:241-242 | C's `/` for a positive divisor: the quotient is truncated toward zero, so the remainder has the dividend's sign and is smaller than the divisor in magnitude |
| Geometry.CMod | src/main.c:134 | C's `%` for a positive divisor: the result lies in `[0, d)` for a non-negative dividend and in `(-d, 0]` for a negative one |
| Geometry.CModZero24 | src/main.c:134 | for the divisor 24, C's remainder is zero exactly when the mathematical remainder is |
| Geometry.IndexCovers | src/main.c:121-127 | every buffer cell is the flat index `x + y*640` of one on-screen point, so the fill loops reach the whole buffer |
| Layout.InitialButton | src/main.c:146-157 | the button built for palette entry b has that entry's colour, index b, is unselected, and its 16×16 square lies on screen |
| Layout.ButtonCorner | src/main.c:148-154 | loop row i and column j build button `i + 16j`, an index in `[0, 64)`, at corner `(512 + 16j, 64 + 16i)` |
| Layout.ButtonSquare | src/main.c:146-157 | a point lies in button b's square exactly when it is in the palette block `[512, 576) × [64, 320)` and the button under it is b, so the squares tile the block without overlap |
| Layout.BlankData | src/main.c:176-179 | a fresh tile has 64 cells, all palette index 0 |
| Layout.InitialTile | src/main.c:169-180 | tile t keeps index t, is unselected, all of its cells are 0, and its 16×16 thumbnail lies on screen |
| Layout.TileSquare | src/main.c:173-174 | a point lies in tile t's thumbnail exactly when it is in the sheet block `[50, 178) × [50, 306)` and the tile under it is t |
| Layout.AreasDisjoint | src/main.c:251-257 | the palette block, the canvas and the sheet block are on screen and pairwise disjoint |
| Selection.LastTrue | src/main.c:229-237 | the winner of a scan is a hit, no later candidate hits, and there is no winner exactly when nothing hits |
| Selection.LastTrueStep | src/main.c:229-237 | scanning one more candidate: a hit takes over and a miss keeps the previous winner |
| Selection.LastTrueUnique | src/main.c:229-237 | when exactly one candidate hits, it is the winner |
| Selection.PickColourInLayout | src/main.c:229-233 | under the start-up layout, a scan picks the colour and index of the button under the mouse, and keeps the current colour when the mouse is outside the palette block |
| Selection.PickTileInLayout | src/main.c:234-238 | under the start-up layout, a scan moves the current sprite's index to the tile under the mouse, and keeps it when the mouse is outside the sheet |
| Selection.PaintsCellExactly | src/main.c:241-244 | the gate before draw_pixel admits exactly mouse x in `[201, 416)` and y in `[61, 276)` |
| Selection.PixelOnCanvas | src/main.c:241-242 | over the canvas, the painted cell is the cell draw_canvas shows at that point |
| Selection.PixelLeftOfCanvas | src/main.c:241-242 | just left of the canvas, truncation gives column 0, where floor division would give -1 |
| Raster.ButtonFrame | src/main.c:291-312 | a selected button has the highlight on all four edges and its colour inside; an unselected one has its colour edge to edge |
| Raster.SpriteZoom | src/main.c:367-380 | every pixel of the z×z block of cell (cx, cy) lies inside the tile's square and, off the ring, shows `palette[cell (cx, cy)]` |
| Raster.CellBlock | src/main.c:378 | an offset inside cell c's z-wide block lies inside the `8z` square and divides back to c |
| Raster.SpriteBorder | src/main.c:371-373 | a selected tile has the highlight on all four edges of its `scale*8` square |
| Raster.UnselectedIgnoresScale | src/main.c:384-395 | an unselected tile is drawn 16×16, sampling `i/2, j/2`, whatever scale is passed |
| Raster.CanvasZoom | src/main.c:352-357 | the canvas shows each cell as a 24×24 block of its palette colour |
| Raster.ThumbnailMatchesCanvas | src/main.c:354-355 | off the ring, a thumbnail pixel and a canvas pixel of the same cell show the same colour |
| Raster.PaintReadBack | src/main.c:342 | after painting cell (px, py) with index c, that cell reads back c; every other cell and every other field is unchanged; the tile stays valid |
| Raster.PaintOnCanvas | src/main.c:342 | after painting, the canvas shows `palette[c]` on exactly that cell's 24×24 block and what it showed before elsewhere |
| Raster.PaintOnThumbnail | src/main.c:342 | after painting, the thumbnail shows `palette[c]` on that cell's 2×2 block, except under the ring, and what it showed before elsewhere |
| Raster.SheetPixelNearCorner | src/main.c:398-404 | in the sheet, the pixel one in from each thumbnail's corner shows the tile's first cell |
| Raster.DrawColourButton | src/main.c:288-314 | the button's square shows `ButtonPixel` and every other buffer cell is unchanged |
| Raster.DrawSprite | src/main.c:361-396 | the tile's square, of side `scale*8` when selected and 16 when not, shows `SpritePixel`, and nothing else changes |
| Raster.DrawSelectedSprite | src/main.c:365-383 | the selected branch: ring plus zoom-`scale` sampling on the `scale*8` square, and nothing else changes |
| Raster.DrawUnselectedSprite | src/main.c:384-395 | the unselected branch: zoom-2 sampling on the 16×16 square, and nothing else changes |
| Raster.DrawCanvas | src/main.c:345-358 | the canvas shows the sheet's tile at the current sprite's index at 24×, not the current sprite's own stale cells; nothing else changes |
| Raster.DrawSpriteSheet | src/main.c:398-404 | the sheet block shows every tile's thumbnail at its own position, and nothing outside the block changes |
| Editor.GridOnCellBoundaries | src/main.c:130-139 | the start-up grid lines, written with C's `%` around the screen centre, fall exactly on the canvas cells' boundaries |
| Editor.InitScreen | src/main.c:121-139 | after the background fill and the grid loops, every pixel is the grid colour on a grid line inside `[224, 416] × [84, 276]` and the background colour elsewhere |
| Editor.InitButtons | src/main.c:141-157 | every button b is `InitialButton(palette, b)` |
| Editor.InitSheet | src/main.c:166-180 | every tile t is `InitialTile(t)` |
| Editor.Editor.constructor | src/main.c:120-182 | start-up: the initial picture, the buttons and tiles in layout, current colour zero and current sprite a copy of tile 0, with the editor invariant established |
| Editor.Editor.ColourSelect | src/main.c:316-327 | on a hit, the current colour takes the button's colour and index, and otherwise it is unchanged; the button is deselected either way and nothing else changes |
| Editor.Editor.SpriteSelect | src/main.c:406-416 | on a hit, only the current sprite's index is overwritten; the tile is deselected either way and nothing else changes |
| Editor.Editor.DrawPixel | src/main.c:329-343 | writes the current colour's index into cell `x + 8y` of the sheet's tile at the current sprite's index; every other tile is unchanged |
| Editor.Editor.ScanButtons | src/main.c:229-233 | the current colour is the last hit in array order (unchanged if none), and exactly the button at its index is selected |
| Editor.Editor.ScanTiles | src/main.c:234-238 | the current sprite's index is the last hit in array order (unchanged if none), and exactly the tile at that index is selected |
| Editor.Editor.ProcessClick | src/main.c:226-249 | with the button up nothing changes; with it down, both scans happen, exactly the winners are selected, and the current tile is painted when the gate admits the click; the editor invariant is kept |
| Editor.Editor.Render | src/main.c:251-257 | the palette block, the canvas and the sheet block each show their own picture of the current state, and every other pixel is unchanged |
| Scenario.Start | src/main.c:120-182 | a fresh editor has colour 0, sprite 0 and every tile blank |
| Scenario.SelectClick | src/main.c:226-238 | a click off the canvas selects the button and the tile under the mouse, if any, and paints nothing |
| Scenario.PaintClick | src/main.c:240-248 | a click on the canvas keeps the current colour and tile and paints the cell under the mouse |
| Scenario.CanvasCorner | src/main.c:345-358 | after a redraw, the canvas's top-left pixel shows the current tile's first cell |
| Scenario.ThumbCorner | src/main.c:398-404 | after a redraw, the pixel one in from tile t's thumbnail corner shows tile t's first cell |
| Scenario.Redraw | src/main.c:251-257 | a redraw, then the canvas corner and the pixels near the corners of tiles 3 and 4 |
| Scenario.PaintTileThree | src/main.c:226-257 | click button 5, tile 3, the canvas corner, then one pixel left of button 5, and redraw: the colour stays 5, the canvas corner and tile 3's thumbnail show palette entry 5, and the untouched tile 4 shows entry 0 |

## Left out

- Window, renderer and texture creation, and the fatal start-up errors (src/main.c:65-99): these are calls into SDL.
- Event polling, the keyboard array and the mouse updates (src/main.c:186-217): the mouse state is a parameter of `ProcessClick`. Quitting is not modelled.
- Frame pacing with the tick counter (src/main.c:220-223) and presenting the frame (src/main.c:274-279): these depend on the clock and the display.
- The commented-out save feature (src/main.c:259-269): it is dead code.
- The colours in `palette.h` are not part of this model. The palette is any 64 colours, passed to the constructor.
- Colours are 32-bit values in `[0, 2^32)`. C keeps them in `int` and `unsigned int`; whether a bit pattern reads as signed is not modelled.
- Mouse coordinates are unbounded integers. The C code's `int` arithmetic on them cannot overflow for screen coordinates.
- DrawColourButton: requires its whole square to lie on screen. C only needs every flat index to land inside the buffer, which a square wrapping past the right edge would also meet. The start-up layout keeps every square on screen (`Layout.InitialButton`).
- DrawSprite: requires its whole square on screen, for the same reason (`Layout.InitialTile`).
- DrawSelectedSprite and DrawUnselectedSprite also require their square on screen, for the same reason.
- DrawPixel: does not take the `pixels` buffer, and does not compute the unused `buffer_index` (src/main.c:331-334). Neither touches any state.
- DrawSpriteSheet: its unused `x` and `y` parameters (20 and 20 at the call) are dropped.
- ProcessClick and Render: require `Valid()`, the layout invariant. main keeps it from start-up onward (the constructor establishes it and ProcessClick keeps it); C states no such precondition.
