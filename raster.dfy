/** Compositing into the pixel buffer: what each draw routine puts at each
    point of its square (the specification functions), what that means
    (the lemmas), and the draw routines themselves, as methods whose
    postconditions give the new buffer point by point. */
module Raster {
  import opened Geometry
  import opened Layout
  import opened Selection

  // ---------------------------------------------------------------------
  // What each element looks like, at offset (i, j) from its corner.

  /** A button: its colour, under a one-pixel highlight ring when selected. */
  function ButtonPixel(b: ColourButton, i: int, j: int): Colour
    requires 0 <= i < BUTTON_SIZE && 0 <= j < BUTTON_SIZE
  {
    if b.selected && (i == 0 || i == BUTTON_SIZE - 1 || j == 0 || j == BUTTON_SIZE - 1)
    then HIGHLIGHT
    else b.colour
  }

  /** The magnification draw_sprite applies: `scale` when the tile is
      selected, and always 2 when it is not. */
  function Zoom(s: Sprite, scale: int): int
  {
    if s.selected then scale else 2
  }

  /** The side of the square draw_sprite fills. */
  function Extent(s: Sprite, scale: int): nat
  {
    if Zoom(s, scale) > 0 then Zoom(s, scale) * TILE_SIZE else 0
  }

  predicate OnRing(s: Sprite, scale: int, i: int, j: int)
  {
    s.selected && (i == 0 || i == Extent(s, scale) - 1 || j == 0 || j == Extent(s, scale) - 1)
  }

  lemma DivBelow(i: int, z: int)
    requires z > 0 && 0 <= i < z * TILE_SIZE
    ensures 0 <= i / z < TILE_SIZE
  {
  }

  /** A thumbnail or magnified tile: nearest-neighbour sampling of the
      tile's cells, under a highlight ring when selected. */
  function SpritePixel(palette: seq<Colour>, s: Sprite, scale: int, i: int, j: int): Colour
    requires ValidPalette(palette) && ValidTileData(s.colourData)
    requires 0 <= i < Extent(s, scale) && 0 <= j < Extent(s, scale)
  {
    if OnRing(s, scale, i, j) then HIGHLIGHT
    else
      var z := Zoom(s, scale);
      DivBelow(i, z);
      DivBelow(j, z);
      palette[s.colourData[i / z + (j / z) * TILE_SIZE]]
  }

  /** The zoomed canvas: the tile at 24× with no ring, whatever its selection. */
  function CanvasPixel(palette: seq<Colour>, s: Sprite, i: int, j: int): Colour
    requires ValidPalette(palette) && ValidTileData(s.colourData)
    requires 0 <= i < CANVAS_SIZE && 0 <= j < CANVAS_SIZE
  {
    palette[s.colourData[i / RENDER_SIZE + (j / RENDER_SIZE) * TILE_SIZE]]
  }

  // ---------------------------------------------------------------------
  // Properties of the pictures.

  /** A selected button shows the highlight on all four edges of its square
      and its colour inside; an unselected one shows its colour edge to edge. */
  lemma ButtonFrame(b: ColourButton, i: int, j: int)
    requires 0 <= i < BUTTON_SIZE && 0 <= j < BUTTON_SIZE
    ensures b.selected && (i == 0 || j == 0) ==> ButtonPixel(b, i, j) == ButtonPixel(b, BUTTON_SIZE - 1 - i, BUTTON_SIZE - 1 - j) == HIGHLIGHT
    ensures b.selected && 0 < i < BUTTON_SIZE - 1 && 0 < j < BUTTON_SIZE - 1 ==> ButtonPixel(b, i, j) == b.colour
    ensures !b.selected ==> ButtonPixel(b, i, j) == b.colour
  {
  }

  /** (c*z + d) / z == c for an offset d inside the block. */
  lemma DivBlock(c: int, z: int, d: int)
    requires 0 <= c && z > 0 && 0 <= d < z
    ensures (c * z + d) / z == c
  {
    var q := (c * z + d) / z;
    if q > c {
      MulMonotone(c + 1, q, z);
      assert false;
    } else if q < c {
      MulMonotone(q + 1, c, z);
      assert false;
    }
  }

  /** Offset d inside the z-wide block of cell c lies within the tile's
      z*8 pixels and maps back to cell c. */
  lemma CellBlock(c: int, z: int, d: int)
    requires 0 <= c < TILE_SIZE && z > 0 && 0 <= d < z
    ensures 0 <= c * z + d < TILE_SIZE * z
    ensures (c * z + d) / z == c
  {
    MulMonotone(c + 1, TILE_SIZE, z);
    assert (c + 1) * z == c * z + z;
    DivBlock(c, z, d);
  }

  lemma MulMonotone(a: int, b: int, z: int)
    requires a <= b && 0 <= z
    ensures a * z <= b * z
  {
    assert b * z - a * z == (b - a) * z;
  }

  /** Nearest-neighbour magnification: the block of z×z screen pixels at
      cell (cx, cy) shows that cell's palette colour, except where the
      highlight ring covers it. */
  lemma SpriteZoom(palette: seq<Colour>, s: Sprite, scale: int, cx: int, cy: int, di: int, dj: int)
    requires ValidPalette(palette) && ValidTileData(s.colourData)
    requires Zoom(s, scale) > 0
    requires 0 <= cx < TILE_SIZE && 0 <= cy < TILE_SIZE
    requires 0 <= di < Zoom(s, scale) && 0 <= dj < Zoom(s, scale)
    requires !OnRing(s, scale, cx * Zoom(s, scale) + di, cy * Zoom(s, scale) + dj)
    ensures cx * Zoom(s, scale) + di < Extent(s, scale) && cy * Zoom(s, scale) + dj < Extent(s, scale)
    ensures SpritePixel(palette, s, scale, cx * Zoom(s, scale) + di, cy * Zoom(s, scale) + dj)
         == palette[s.colourData[cx + cy * TILE_SIZE]]
  {
    var z := Zoom(s, scale);
    CellBlock(cx, z, di);
    CellBlock(cy, z, dj);
  }

  /** A selected tile shows the highlight on all four edges of its square. */
  lemma SpriteBorder(palette: seq<Colour>, s: Sprite, scale: int, k: int)
    requires ValidPalette(palette) && ValidTileData(s.colourData)
    requires s.selected && 0 <= k < Extent(s, scale)
    ensures SpritePixel(palette, s, scale, k, 0) == HIGHLIGHT
    ensures SpritePixel(palette, s, scale, 0, k) == HIGHLIGHT
    ensures SpritePixel(palette, s, scale, k, Extent(s, scale) - 1) == HIGHLIGHT
    ensures SpritePixel(palette, s, scale, Extent(s, scale) - 1, k) == HIGHLIGHT
  {
  }

  /** An unselected tile is drawn 16×16 at zoom 2, whatever scale is asked for. */
  lemma UnselectedIgnoresScale(palette: seq<Colour>, s: Sprite, scale: int, i: int, j: int)
    requires ValidPalette(palette) && ValidTileData(s.colourData) && !s.selected
    requires 0 <= i < THUMB_SIZE && 0 <= j < THUMB_SIZE
    ensures Extent(s, scale) == THUMB_SIZE
    ensures SpritePixel(palette, s, scale, i, j) == SpritePixel(palette, s, 2, i, j)
    ensures SpritePixel(palette, s, scale, i, j) == palette[s.colourData[i / 2 + (j / 2) * TILE_SIZE]]
  {
  }

  /** The canvas shows cell (cx, cy) as a 24×24 block of its palette colour. */
  lemma CanvasZoom(palette: seq<Colour>, s: Sprite, cx: int, cy: int, di: int, dj: int)
    requires ValidPalette(palette) && ValidTileData(s.colourData)
    requires 0 <= cx < TILE_SIZE && 0 <= cy < TILE_SIZE
    requires 0 <= di < RENDER_SIZE && 0 <= dj < RENDER_SIZE
    ensures CanvasPixel(palette, s, cx * RENDER_SIZE + di, cy * RENDER_SIZE + dj)
         == palette[s.colourData[cx + cy * TILE_SIZE]]
  {
  }

  /** Canvas and thumbnail agree: off the ring, a thumbnail pixel shows the
      colour of the canvas block of the same cell. */
  lemma ThumbnailMatchesCanvas(palette: seq<Colour>, s: Sprite, i: int, j: int, ci: int, cj: int)
    requires ValidPalette(palette) && ValidTileData(s.colourData)
    requires 0 <= i < THUMB_SIZE && 0 <= j < THUMB_SIZE && !OnRing(s, 2, i, j)
    requires 0 <= ci < CANVAS_SIZE && 0 <= cj < CANVAS_SIZE
    requires ci / RENDER_SIZE == i / 2 && cj / RENDER_SIZE == j / 2
    ensures SpritePixel(palette, s, 2, i, j) == CanvasPixel(palette, s, ci, cj)
  {
  }

  // ---------------------------------------------------------------------
  // Painting a cell (draw_pixel's write).

  /** Tile `s` with cell (px, py) set to palette index c. */
  function Paint(s: Sprite, px: int, py: int, c: int): Sprite
    requires |s.colourData| == TILE_CELLS
    requires 0 <= px < TILE_SIZE && 0 <= py < TILE_SIZE
  {
    s.(colourData := s.colourData[px + TILE_SIZE * py := c])
  }

  /** Reading the painted cell back yields the painted index; every other
      cell and every other field keeps its value, and the tile stays valid. */
  lemma PaintReadBack(s: Sprite, px: int, py: int, c: int)
    requires ValidTileData(s.colourData) && 0 <= c < COLOURS
    requires 0 <= px < TILE_SIZE && 0 <= py < TILE_SIZE
    ensures ValidTileData(Paint(s, px, py, c).colourData)
    ensures Paint(s, px, py, c).colourData[px + TILE_SIZE * py] == c
    ensures forall k :: 0 <= k < TILE_CELLS && k != px + TILE_SIZE * py ==>
      Paint(s, px, py, c).colourData[k] == s.colourData[k]
    ensures Paint(s, px, py, c).(colourData := s.colourData) == s
  {
  }

  /** After painting cell (px, py), the canvas shows the new colour on that
      cell's 24×24 block and what it showed before everywhere else. */
  lemma PaintOnCanvas(palette: seq<Colour>, s: Sprite, px: int, py: int, c: int, i: int, j: int)
    requires ValidPalette(palette) && ValidTileData(s.colourData) && 0 <= c < COLOURS
    requires 0 <= px < TILE_SIZE && 0 <= py < TILE_SIZE
    requires 0 <= i < CANVAS_SIZE && 0 <= j < CANVAS_SIZE
    ensures ValidTileData(Paint(s, px, py, c).colourData)
    ensures CanvasPixel(palette, Paint(s, px, py, c), i, j) ==
      if i / RENDER_SIZE == px && j / RENDER_SIZE == py then palette[c] else CanvasPixel(palette, s, i, j)
  {
    PaintReadBack(s, px, py, c);
  }

  /** After painting cell (px, py), the thumbnail shows the new colour on
      that cell's 2×2 block, except under the highlight ring, and what it
      showed before everywhere else. */
  lemma PaintOnThumbnail(palette: seq<Colour>, s: Sprite, px: int, py: int, c: int, i: int, j: int)
    requires ValidPalette(palette) && ValidTileData(s.colourData) && 0 <= c < COLOURS
    requires 0 <= px < TILE_SIZE && 0 <= py < TILE_SIZE
    requires 0 <= i < THUMB_SIZE && 0 <= j < THUMB_SIZE
    ensures ValidTileData(Paint(s, px, py, c).colourData)
    ensures SpritePixel(palette, Paint(s, px, py, c), 2, i, j) ==
      if !OnRing(s, 2, i, j) && i / 2 == px && j / 2 == py then palette[c] else SpritePixel(palette, s, 2, i, j)
  {
    PaintReadBack(s, px, py, c);
    var k := i / 2 + (j / 2) * TILE_SIZE;
    assert 0 <= i / 2 < TILE_SIZE && 0 <= j / 2 < TILE_SIZE;
    assert k == px + TILE_SIZE * py <==> i / 2 == px && j / 2 == py;
  }

  // ---------------------------------------------------------------------
  // The picture at a screen point, area by area.

  /** The palette area: each point shows its button. */
  function PalettePixel(bs: seq<ColourButton>, x: int, y: int): Colour
    requires |bs| == COLOURS
    requires forall b :: 0 <= b < COLOURS ==> bs[b].x == ButtonX(b) && bs[b].y == ButtonY(b)
    requires InPaletteArea(x, y)
  {
    var b := ButtonUnder(x, y);
    ButtonSquare(b, x, y);
    ButtonPixel(bs[b], x - ButtonX(b), y - ButtonY(b))
  }

  /** The sheet area: each point shows its tile's thumbnail. */
  function SheetPixel(palette: seq<Colour>, ts: seq<Sprite>, x: int, y: int): Colour
    requires ValidPalette(palette) && TilesInLayout(ts) && InSheetArea(x, y)
  {
    var t := TileUnder(x, y);
    TileSquare(t, x, y);
    SpritePixel(palette, ts[t], 2, x - TileX(t), y - TileY(t))
  }

  /** In the sheet, the pixel one in from a thumbnail's corner (inside the
      highlight ring, if any) shows the tile's first cell. */
  lemma SheetPixelNearCorner(palette: seq<Colour>, ts: seq<Sprite>, t: int)
    requires ValidPalette(palette) && TilesInLayout(ts) && 0 <= t < N_TILES
    ensures InSheetArea(TileX(t) + 1, TileY(t) + 1)
    ensures SheetPixel(palette, ts, TileX(t) + 1, TileY(t) + 1) == palette[ts[t].colourData[0]]
  {
    TileSquare(t, TileX(t) + 1, TileY(t) + 1);
    SpriteZoom(palette, ts[t], 2, 0, 0, 1, 1);
  }

  // ---------------------------------------------------------------------
  // The draw routines.

  /** One write into the buffer, at flat index k, which is screen point (x, y). */
  method Plot(pixels: array<Colour>, k: int, ghost x: int, ghost y: int, v: Colour)
    requires pixels.Length == SCREEN_SIZE && OnScreen(x, y) && k == Index(x, y)
    modifies pixels
    ensures forall x', y' | OnScreen(x', y') ::
              pixels[Index(x', y')] == (if x' == x && y' == y then v else old(pixels[Index(x', y')]))
  {
    IndexInBounds(x, y);
    pixels[k] := v;
  }

  /** draw_colour_button: paints the button's 16×16 square and nothing else. */
  method DrawColourButton(pixels: array<Colour>, b: ColourButton)
    requires pixels.Length == SCREEN_SIZE
    requires SquareOnScreen(b.x, b.y, BUTTON_SIZE)
    modifies pixels
    ensures forall x, y | OnScreen(x, y) ::
              pixels[Index(x, y)] ==
                (if InSquare(x, y, b.x, b.y, BUTTON_SIZE) then ButtonPixel(b, x - b.x, y - b.y) else old(pixels[Index(x, y)]))
  {
    var buttonIndex := b.x + b.y * SCREEN_WIDTH;
    if b.selected {
      for i := 0 to BUTTON_SIZE
        invariant forall x, y | OnScreen(x, y) ::
                    pixels[Index(x, y)] ==
                      (if ColumnsDone(x, y, b.x, b.y, BUTTON_SIZE, i, 0) then ButtonPixel(b, x - b.x, y - b.y) else old(pixels[Index(x, y)]))
      {
        for j := 0 to BUTTON_SIZE
          invariant forall x, y | OnScreen(x, y) ::
                      pixels[Index(x, y)] ==
                        (if ColumnsDone(x, y, b.x, b.y, BUTTON_SIZE, i, j) then ButtonPixel(b, x - b.x, y - b.y) else old(pixels[Index(x, y)]))
        {
          if i == 0 || i == BUTTON_SIZE - 1 || j == 0 || j == BUTTON_SIZE - 1 {
            Plot(pixels, buttonIndex + i + j * SCREEN_WIDTH, b.x + i, b.y + j, HIGHLIGHT);
          } else {
            Plot(pixels, buttonIndex + i + j * SCREEN_WIDTH, b.x + i, b.y + j, b.colour);
          }
        }
      }
    } else {
      for i := 0 to BUTTON_SIZE
        invariant forall x, y | OnScreen(x, y) ::
                    pixels[Index(x, y)] ==
                      (if ColumnsDone(x, y, b.x, b.y, BUTTON_SIZE, i, 0) then ButtonPixel(b, x - b.x, y - b.y) else old(pixels[Index(x, y)]))
      {
        for j := 0 to BUTTON_SIZE
          invariant forall x, y | OnScreen(x, y) ::
                      pixels[Index(x, y)] ==
                        (if ColumnsDone(x, y, b.x, b.y, BUTTON_SIZE, i, j) then ButtonPixel(b, x - b.x, y - b.y) else old(pixels[Index(x, y)]))
        {
          Plot(pixels, buttonIndex + i + j * SCREEN_WIDTH, b.x + i, b.y + j, b.colour);
        }
      }
    }
  }

  /** draw_sprite: fills the tile's square, of side scale*8 when selected
      and 16 when not, and nothing else. */
  method DrawSprite(pixels: array<Colour>, palette: seq<Colour>, s: Sprite, scale: int)
    requires pixels.Length == SCREEN_SIZE
    requires ValidPalette(palette) && ValidTileData(s.colourData)
    requires SquareOnScreen(s.x, s.y, Extent(s, scale))
    modifies pixels
    ensures forall x, y | OnScreen(x, y) ::
              pixels[Index(x, y)] ==
                (if InSquare(x, y, s.x, s.y, Extent(s, scale))
                 then SpritePixel(palette, s, scale, x - s.x, y - s.y)
                 else old(pixels[Index(x, y)]))
  {
    if s.selected {
      DrawSelectedSprite(pixels, palette, s, scale);
    } else {
      DrawUnselectedSprite(pixels, palette, s, scale);
    }
  }

  /** draw_sprite's first branch: the ring and the tile at zoom `scale`. */
  method DrawSelectedSprite(pixels: array<Colour>, palette: seq<Colour>, s: Sprite, scale: int)
    requires pixels.Length == SCREEN_SIZE
    requires ValidPalette(palette) && ValidTileData(s.colourData) && s.selected
    requires SquareOnScreen(s.x, s.y, Extent(s, scale))
    modifies pixels
    ensures forall x, y | OnScreen(x, y) ::
              pixels[Index(x, y)] ==
                (if InSquare(x, y, s.x, s.y, Extent(s, scale))
                 then SpritePixel(palette, s, scale, x - s.x, y - s.y)
                 else old(pixels[Index(x, y)]))
  {
    var bufferIndex := s.x + s.y * SCREEN_WIDTH;
    var e := Extent(s, scale);
    assert scale > 0 ==> e == scale * TILE_SIZE;
    var i := 0;
    while i < scale * TILE_SIZE
      invariant 0 <= i <= e
      invariant forall x, y | OnScreen(x, y) ::
                  pixels[Index(x, y)] ==
                    (if ColumnsDone(x, y, s.x, s.y, e, i, 0)
                     then SpritePixel(palette, s, scale, x - s.x, y - s.y)
                     else old(pixels[Index(x, y)]))
    {
      var j := 0;
      while j < scale * TILE_SIZE
        invariant 0 <= j <= e
        invariant forall x, y | OnScreen(x, y) ::
                    pixels[Index(x, y)] ==
                      (if ColumnsDone(x, y, s.x, s.y, e, i, j)
                       then SpritePixel(palette, s, scale, x - s.x, y - s.y)
                       else old(pixels[Index(x, y)]))
      {
        var v: Colour;
        if i == 0 || i == scale * TILE_SIZE - 1 || j == 0 || j == scale * TILE_SIZE - 1 {
          v := HIGHLIGHT;
        } else {
          DivBelow(i, scale);
          DivBelow(j, scale);
          v := palette[s.colourData[i / scale + (j / scale) * TILE_SIZE]];
        }
        assert v == SpritePixel(palette, s, scale, i, j);
        Plot(pixels, bufferIndex + i + j * SCREEN_WIDTH, s.x + i, s.y + j, v);
        j := j + 1;
      }
      i := i + 1;
    }
  }

  /** draw_sprite's second branch: always 16×16 at zoom 2, whatever `scale` is. */
  method DrawUnselectedSprite(pixels: array<Colour>, palette: seq<Colour>, s: Sprite, scale: int)
    requires pixels.Length == SCREEN_SIZE
    requires ValidPalette(palette) && ValidTileData(s.colourData) && !s.selected
    requires SquareOnScreen(s.x, s.y, Extent(s, scale))
    modifies pixels
    ensures forall x, y | OnScreen(x, y) ::
              pixels[Index(x, y)] ==
                (if InSquare(x, y, s.x, s.y, Extent(s, scale))
                 then SpritePixel(palette, s, scale, x - s.x, y - s.y)
                 else old(pixels[Index(x, y)]))
  {
    var bufferIndex := s.x + s.y * SCREEN_WIDTH;
    var e := Extent(s, scale);
    for i := 0 to 2 * TILE_SIZE
      invariant forall x, y | OnScreen(x, y) ::
                  pixels[Index(x, y)] ==
                    (if ColumnsDone(x, y, s.x, s.y, e, i, 0)
                     then SpritePixel(palette, s, scale, x - s.x, y - s.y)
                     else old(pixels[Index(x, y)]))
    {
      for j := 0 to 2 * TILE_SIZE
        invariant forall x, y | OnScreen(x, y) ::
                    pixels[Index(x, y)] ==
                      (if ColumnsDone(x, y, s.x, s.y, e, i, j)
                       then SpritePixel(palette, s, scale, x - s.x, y - s.y)
                       else old(pixels[Index(x, y)]))
      {
        Plot(pixels, bufferIndex + i + j * SCREEN_WIDTH, s.x + i, s.y + j,
             palette[s.colourData[i / 2 + (j / 2) * TILE_SIZE]]);
      }
    }
  }

  /** draw_canvas: fills the 192×192 canvas with the tile the sheet holds
      at the current sprite's index (not the current sprite's own copy of
      the cells), and nothing else. */
  method DrawCanvas(pixels: array<Colour>, palette: seq<Colour>, sheet: array<Sprite>, sprite: Sprite)
    requires pixels.Length == SCREEN_SIZE && ValidPalette(palette)
    requires 0 <= sprite.index < sheet.Length && ValidTileData(sheet[sprite.index].colourData)
    modifies pixels
    ensures forall x, y | OnScreen(x, y) ::
              pixels[Index(x, y)] ==
                (if InCanvasArea(x, y)
                 then CanvasPixel(palette, sheet[sprite.index], x - CANVAS_X, y - CANVAS_Y)
                 else old(pixels[Index(x, y)]))
  {
    var bufferIndex := CANVAS_X + CANVAS_Y * SCREEN_WIDTH;
    var tile := sheet[sprite.index];
    for i := 0 to RENDER_SIZE * TILE_SIZE
      invariant forall x, y | OnScreen(x, y) ::
                  pixels[Index(x, y)] ==
                    (if ColumnsDone(x, y, CANVAS_X, CANVAS_Y, CANVAS_SIZE, i, 0)
                     then CanvasPixel(palette, tile, x - CANVAS_X, y - CANVAS_Y)
                     else old(pixels[Index(x, y)]))
    {
      for j := 0 to RENDER_SIZE * TILE_SIZE
        invariant forall x, y | OnScreen(x, y) ::
                    pixels[Index(x, y)] ==
                      (if ColumnsDone(x, y, CANVAS_X, CANVAS_Y, CANVAS_SIZE, i, j)
                       then CanvasPixel(palette, tile, x - CANVAS_X, y - CANVAS_Y)
                       else old(pixels[Index(x, y)]))
      {
        Plot(pixels, bufferIndex + i + j * SCREEN_WIDTH, CANVAS_X + i, CANVAS_Y + j,
             palette[sheet[sprite.index].colourData[i / RENDER_SIZE + (j / RENDER_SIZE) * TILE_SIZE]]);
      }
    }
  }

  /** draw_sprite_sheet: draws every tile at zoom 2 at its own corner, so the
      sheet area shows each tile's thumbnail and nothing outside it changes. */
  method DrawSpriteSheet(pixels: array<Colour>, palette: seq<Colour>, sheet: array<Sprite>)
    requires pixels.Length == SCREEN_SIZE && ValidPalette(palette)
    requires TilesInLayout(sheet[..])
    modifies pixels
    ensures forall x, y | OnScreen(x, y) ::
              pixels[Index(x, y)] ==
                (if InSheetArea(x, y) then SheetPixel(palette, sheet[..], x, y) else old(pixels[Index(x, y)]))
  {
    for t := 0 to N_TILES
      invariant forall x, y | OnScreen(x, y) ::
                  pixels[Index(x, y)] ==
                    (if InSheetArea(x, y) && TileUnder(x, y) < t
                     then SheetPixel(palette, sheet[..], x, y)
                     else old(pixels[Index(x, y)]))
    {
      assert sheet[..][t] == sheet[t];
      DrawSprite(pixels, palette, sheet[t], 2);
      forall x, y | OnScreen(x, y)
        ensures InSquare(x, y, TileX(t), TileY(t), THUMB_SIZE) <==> InSheetArea(x, y) && TileUnder(x, y) == t
      {
        TileSquare(t, x, y);
      }
    }
  }
}
