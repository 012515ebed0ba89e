/** The editor's entities and its fixed screen layout: the 64 colour buttons
    in four columns of sixteen, the 128 sprite tiles of the sheet in eight
    columns, and the magnified drawing canvas in the middle of the screen. */
module Layout {
  import opened Geometry

  const BUTTON_SIZE: int := 16
  const COLOURS: int := 64
  const COLUMNS: int := 4
  const ROWS: int := COLOURS / COLUMNS

  const TILE_SIZE: int := 8
  const TILE_CELLS: int := TILE_SIZE * TILE_SIZE
  const N_TILES: int := 128
  const RENDER_SIZE: int := 24

  const SPRITE_SHEET_X: int := 50
  const SPRITE_SHEET_Y: int := 50
  const THUMB_SIZE: int := 2 * TILE_SIZE

  const PALETTE_X: int := 512
  const PALETTE_Y: int := 64

  /** Top-left corner and side of the zoomed canvas: (224, 84) and 192. */
  const CANVAS_X: int := SCREEN_WIDTH / 2 - RENDER_SIZE * TILE_SIZE / 2
  const CANVAS_Y: int := SCREEN_HEIGHT / 2 - RENDER_SIZE * TILE_SIZE / 2
  const CANVAS_SIZE: int := RENDER_SIZE * TILE_SIZE

  const HIGHLIGHT: Colour := 0xffff_ff00
  const BACKGROUND: Colour := 0x2323_24ff
  const GRID_COLOUR: Colour := 0x0000_00ff

  /** One swatch of the palette selector. */
  datatype ColourButton = ColourButton(colour: Colour, colourIndex: int, x: int, y: int, selected: bool)

  /** One tile of the sprite sheet: an 8×8 grid of palette indices, row by row. */
  datatype Sprite = Sprite(colourData: seq<int>, index: int, x: int, y: int, selected: bool)

  datatype MouseInput = MouseInput(click: bool, x: int, y: int)

  predicate ValidPalette(palette: seq<Colour>)
  {
    |palette| == COLOURS
  }

  /** Every cell of a tile names an entry of the palette. */
  predicate ValidTileData(data: seq<int>)
  {
    |data| == TILE_CELLS && forall k :: 0 <= k < |data| ==> 0 <= data[k] < COLOURS
  }

  // ---------------------------------------------------------------------
  // Colour buttons: button `i + 16*j` sits in column j, row i.

  function ButtonX(b: int): int
  {
    PALETTE_X + (b / ROWS) * BUTTON_SIZE
  }

  function ButtonY(b: int): int
  {
    PALETTE_Y + (b % ROWS) * BUTTON_SIZE
  }

  /** The button the start-up loop builds for palette entry `b`. */
  function InitialButton(palette: seq<Colour>, b: int): (r: ColourButton)
    requires ValidPalette(palette) && 0 <= b < COLOURS
    ensures r.colour == palette[b] && r.colourIndex == b && !r.selected
    ensures SquareOnScreen(r.x, r.y, BUTTON_SIZE)
  {
    ColourButton(palette[b], b, ButtonX(b), ButtonY(b), false)
  }

  /** The loop's row `i` and column `j` give button `i + 16*j` the corner
      (512 + 16*j, 64 + 16*i). */
  lemma ButtonCorner(i: int, j: int)
    requires 0 <= i < ROWS && 0 <= j < COLUMNS
    ensures 0 <= i + j * COLOURS / COLUMNS < COLOURS
    ensures ButtonX(i + j * COLOURS / COLUMNS) == PALETTE_X + j * BUTTON_SIZE
    ensures ButtonY(i + j * COLOURS / COLUMNS) == PALETTE_Y + i * BUTTON_SIZE
  {
  }

  /** The block of the screen the 64 buttons cover: x in [512, 576), y in [64, 320). */
  predicate InPaletteArea(x: int, y: int)
  {
    PALETTE_X <= x < PALETTE_X + COLUMNS * BUTTON_SIZE &&
    PALETTE_Y <= y < PALETTE_Y + ROWS * BUTTON_SIZE
  }

  /** The index of the button whose square holds (x, y). */
  function ButtonUnder(x: int, y: int): (b: int)
    requires InPaletteArea(x, y)
    ensures 0 <= b < COLOURS
  {
    ((x - PALETTE_X) / BUTTON_SIZE) * ROWS + (y - PALETTE_Y) / BUTTON_SIZE
  }

  /** The button squares tile the palette area without overlap. */
  lemma ButtonSquare(b: int, x: int, y: int)
    requires 0 <= b < COLOURS
    ensures InSquare(x, y, ButtonX(b), ButtonY(b), BUTTON_SIZE)
        <==> InPaletteArea(x, y) && ButtonUnder(x, y) == b
  {
    var column, row := (x - PALETTE_X) / BUTTON_SIZE, (y - PALETTE_Y) / BUTTON_SIZE;
    if InSquare(x, y, ButtonX(b), ButtonY(b), BUTTON_SIZE) {
      assert column == b / ROWS && row == b % ROWS;
    }
    if InPaletteArea(x, y) && ButtonUnder(x, y) == b {
      assert 0 <= row < ROWS && b == column * ROWS + row;
      assert b / ROWS == column && b % ROWS == row;
    }
  }

  // ---------------------------------------------------------------------
  // Sprite tiles: tile t sits in column t % 8, row t / 8 of the sheet.

  function TileX(t: int): int
  {
    2 * (t % TILE_SIZE) * TILE_SIZE + SPRITE_SHEET_X
  }

  function TileY(t: int): int
  {
    2 * (t / TILE_SIZE) * TILE_SIZE + SPRITE_SHEET_Y
  }

  function BlankData(): (d: seq<int>)
    ensures ValidTileData(d) && forall k :: 0 <= k < |d| ==> d[k] == 0
  {
    seq(TILE_CELLS, _ => 0)
  }

  /** The tile the start-up loop builds in slot `t`: all cells palette index 0. */
  function InitialTile(t: int): (r: Sprite)
    requires 0 <= t < N_TILES
    ensures r.index == t && !r.selected && ValidTileData(r.colourData)
    ensures forall k :: 0 <= k < TILE_CELLS ==> r.colourData[k] == 0
    ensures SquareOnScreen(r.x, r.y, THUMB_SIZE)
  {
    Sprite(BlankData(), t, TileX(t), TileY(t), false)
  }

  /** The block of the screen the 128 thumbnails cover: x in [50, 178), y in [50, 306). */
  predicate InSheetArea(x: int, y: int)
  {
    SPRITE_SHEET_X <= x < SPRITE_SHEET_X + TILE_SIZE * THUMB_SIZE &&
    SPRITE_SHEET_Y <= y < SPRITE_SHEET_Y + (N_TILES / TILE_SIZE) * THUMB_SIZE
  }

  /** The index of the tile whose thumbnail holds (x, y). */
  function TileUnder(x: int, y: int): (t: int)
    requires InSheetArea(x, y)
    ensures 0 <= t < N_TILES
  {
    (x - SPRITE_SHEET_X) / THUMB_SIZE + TILE_SIZE * ((y - SPRITE_SHEET_Y) / THUMB_SIZE)
  }

  /** The thumbnail squares tile the sheet area without overlap. */
  lemma TileSquare(t: int, x: int, y: int)
    requires 0 <= t < N_TILES
    ensures InSquare(x, y, TileX(t), TileY(t), THUMB_SIZE)
        <==> InSheetArea(x, y) && TileUnder(x, y) == t
  {
    var column, row := (x - SPRITE_SHEET_X) / THUMB_SIZE, (y - SPRITE_SHEET_Y) / THUMB_SIZE;
    if InSquare(x, y, TileX(t), TileY(t), THUMB_SIZE) {
      assert column == t % TILE_SIZE && row == t / TILE_SIZE;
    }
    if InSheetArea(x, y) && TileUnder(x, y) == t {
      assert 0 <= column < TILE_SIZE && t == column + TILE_SIZE * row;
      assert t % TILE_SIZE == column && t / TILE_SIZE == row;
    }
  }

  // ---------------------------------------------------------------------
  // The canvas.

  predicate InCanvasArea(x: int, y: int)
  {
    InSquare(x, y, CANVAS_X, CANVAS_Y, CANVAS_SIZE)
  }

  /** The three areas the frame redraws are pairwise disjoint and on screen. */
  lemma AreasDisjoint(x: int, y: int)
    ensures InPaletteArea(x, y) ==> OnScreen(x, y) && !InCanvasArea(x, y) && !InSheetArea(x, y)
    ensures InCanvasArea(x, y) ==> OnScreen(x, y) && !InSheetArea(x, y)
    ensures InSheetArea(x, y) ==> OnScreen(x, y)
  {
  }
}
