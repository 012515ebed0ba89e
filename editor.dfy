/** The editor's state as `main` keeps it: the pixel buffer, the 64 colour
    buttons, the 128-tile sprite sheet, and the current colour and sprite.
    The start-up code lays them out, a click is processed by scanning the
    buttons and the tiles and painting a cell, and every frame redraws the
    palette, the canvas and the sheet. */
module Editor {
  import opened Geometry
  import opened Layout
  import opened Selection
  import opened Raster

  // ---------------------------------------------------------------------
  // The start-up picture.

  /** The black working grid drawn once at start-up: the lines x - 320 and
      y - 180 divisible by 24, inside the closed box [224, 416] × [84, 276]. */
  predicate OnGrid(x: int, y: int)
  {
    CANVAS_X <= x <= CANVAS_X + CANVAS_SIZE && CANVAS_Y <= y <= CANVAS_Y + CANVAS_SIZE &&
    (CMod(x - SCREEN_WIDTH / 2, RENDER_SIZE) == 0 || CMod(y - SCREEN_HEIGHT / 2, RENDER_SIZE) == 0)
  }

  function InitialPixel(x: int, y: int): Colour
  {
    if OnGrid(x, y) then GRID_COLOUR else BACKGROUND
  }

  /** The grid lines fall on the boundaries of the canvas cells, so there
      are nine vertical and nine horizontal lines, 24 pixels apart. */
  lemma GridOnCellBoundaries(x: int, y: int)
    ensures OnGrid(x, y) <==>
      CANVAS_X <= x <= CANVAS_X + CANVAS_SIZE && CANVAS_Y <= y <= CANVAS_Y + CANVAS_SIZE &&
      ((x - CANVAS_X) % RENDER_SIZE == 0 || (y - CANVAS_Y) % RENDER_SIZE == 0)
  {
    CModZero24(x - SCREEN_WIDTH / 2);
    CModZero24(y - SCREEN_HEIGHT / 2);
    assert (x - SCREEN_WIDTH / 2) % RENDER_SIZE == (x - CANVAS_X) % RENDER_SIZE;
    assert (y - SCREEN_HEIGHT / 2) % RENDER_SIZE == (y - CANVAS_Y) % RENDER_SIZE;
  }

  /** Rows above `j` are done, and row `j` is done left of `i`. */
  predicate RowsDone(x: int, y: int, i: int, j: int)
  {
    y < j || (y == j && x < i)
  }

  /** The background fill and the grid (the start of main's drawing). */
  method InitScreen(pixels: array<Colour>)
    requires pixels.Length == SCREEN_SIZE
    modifies pixels
    ensures forall x, y | OnScreen(x, y) :: pixels[Index(x, y)] == InitialPixel(x, y)
  {
    for y := 0 to SCREEN_HEIGHT
      invariant forall x', y' | OnScreen(x', y') && RowsDone(x', y', 0, y) :: pixels[Index(x', y')] == BACKGROUND
    {
      for x := 0 to SCREEN_WIDTH
        invariant forall x', y' | OnScreen(x', y') && RowsDone(x', y', x, y) :: pixels[Index(x', y')] == BACKGROUND
      {
        Plot(pixels, x + y * SCREEN_WIDTH, x, y, BACKGROUND);
      }
    }
    var side := CANVAS_SIZE + 1;
    for i := CANVAS_X to CANVAS_X + CANVAS_SIZE + 1
      invariant forall x, y | OnScreen(x, y) ::
                  pixels[Index(x, y)] ==
                    (if ColumnsDone(x, y, CANVAS_X, CANVAS_Y, side, i - CANVAS_X, 0) && OnGrid(x, y)
                     then GRID_COLOUR else BACKGROUND)
    {
      for j := CANVAS_Y to CANVAS_Y + CANVAS_SIZE + 1
        invariant forall x, y | OnScreen(x, y) ::
                    pixels[Index(x, y)] ==
                      (if ColumnsDone(x, y, CANVAS_X, CANVAS_Y, side, i - CANVAS_X, j - CANVAS_Y) && OnGrid(x, y)
                       then GRID_COLOUR else BACKGROUND)
      {
        if CMod(i - SCREEN_WIDTH / 2, RENDER_SIZE) == 0 || CMod(j - SCREEN_HEIGHT / 2, RENDER_SIZE) == 0 {
          Plot(pixels, i + j * SCREEN_WIDTH, i, j, GRID_COLOUR);
        }
      }
    }
  }

  /** The loop that builds the colour buttons, row i and column j at a time. */
  method InitButtons(buttons: array<ColourButton>, palette: seq<Colour>)
    requires buttons.Length == COLOURS && ValidPalette(palette)
    modifies buttons
    ensures forall b :: 0 <= b < COLOURS ==> buttons[b] == InitialButton(palette, b)
  {
    for i := 0 to COLOURS / COLUMNS
      invariant forall b :: 0 <= b < COLOURS && b % ROWS < i ==> buttons[b] == InitialButton(palette, b)
    {
      for j := 0 to COLUMNS
        invariant forall b :: 0 <= b < COLOURS && (b % ROWS < i || (b % ROWS == i && b / ROWS < j)) ==>
                    buttons[b] == InitialButton(palette, b)
      {
        var colourIndex := i + j * COLOURS / COLUMNS;
        ButtonCorner(i, j);
        buttons[colourIndex] := ColourButton(palette[colourIndex], colourIndex,
                                             PALETTE_X + j * BUTTON_SIZE, PALETTE_Y + i * BUTTON_SIZE, false);
      }
    }
  }

  /** The loop that builds the sprite sheet: blank tiles at their corners. */
  method InitSheet(sheet: array<Sprite>)
    requires sheet.Length == N_TILES
    modifies sheet
    ensures forall t :: 0 <= t < N_TILES ==> sheet[t] == InitialTile(t)
  {
    for i := 0 to N_TILES
      invariant forall t :: 0 <= t < i ==> sheet[t] == InitialTile(t)
    {
      var cells: seq<int> := [];
      for j := 0 to TILE_CELLS
        invariant cells == seq(j, _ => 0)
      {
        cells := cells + [0];
      }
      sheet[i] := Sprite(cells, i, 2 * (i % TILE_SIZE) * TILE_SIZE + SPRITE_SHEET_X,
                         2 * (i / TILE_SIZE) * TILE_SIZE + SPRITE_SHEET_Y, false);
    }
  }

  // ---------------------------------------------------------------------
  // The editor.

  /** The three areas a redraw covers. */
  predicate InFrame(x: int, y: int)
  {
    InPaletteArea(x, y) || InCanvasArea(x, y) || InSheetArea(x, y)
  }

  class Editor {
    const palette: seq<Colour>
    const pixels: array<Colour>
    const buttons: array<ColourButton>
    const sheet: array<Sprite>
    var currentColour: ColourButton
    var currentSprite: Sprite

    /** The layout never moves, every tile cell names a palette entry, and
        the current colour and sprite index into the buttons and the sheet. */
    ghost predicate Laid()
      reads this, buttons, sheet
    {
      pixels.Length == SCREEN_SIZE &&
      ButtonsInLayout(palette, buttons[..]) && TilesInLayout(sheet[..]) &&
      0 <= currentColour.colourIndex < COLOURS && 0 <= currentSprite.index < N_TILES
    }

    /** The layout invariant, and no button or tile is highlighted but the
        current one. */
    ghost predicate Valid()
      reads this, buttons, sheet
    {
      Laid() &&
      (forall b :: 0 <= b < COLOURS && buttons[b].selected ==> b == currentColour.colourIndex) &&
      (forall t :: 0 <= t < N_TILES && sheet[t].selected ==> t == currentSprite.index)
    }

    /** main's start-up: screen, buttons, sheet, and the current colour and
        sprite (a copy of tile 0). */
    constructor (palette: seq<Colour>)
      requires ValidPalette(palette)
      ensures Valid() && this.palette == palette
      ensures fresh(pixels) && fresh(buttons) && fresh(sheet)
      ensures forall x, y | OnScreen(x, y) :: pixels[Index(x, y)] == InitialPixel(x, y)
      ensures forall b :: 0 <= b < COLOURS ==> buttons[b] == InitialButton(palette, b)
      ensures forall t :: 0 <= t < N_TILES ==> sheet[t] == InitialTile(t)
      ensures currentColour == ColourButton(0, 0, 0, 0, false)
      ensures currentSprite == InitialTile(0)
    {
      var screen := new Colour[SCREEN_SIZE];
      InitScreen(screen);
      var bs := new ColourButton[COLOURS];
      InitButtons(bs, palette);
      var ts := new Sprite[N_TILES];
      InitSheet(ts);
      this.palette := palette;
      pixels := screen;
      buttons := bs;
      sheet := ts;
      currentColour := ColourButton(0, 0, 0, 0, false);
      currentSprite := ts[0];
    }

    /** colour_select on button i: a hit copies the button's colour and index
        into the current colour; the button is deselected either way. */
    method ColourSelect(i: int, mouse: MouseInput)
      requires 0 <= i < buttons.Length
      modifies buttons, this`currentColour
      ensures buttons[..] == old(buttons[..])[i := old(buttons[i]).(selected := false)]
      ensures currentColour ==
        if ButtonHit(old(buttons[i]), mouse)
        then old(currentColour).(colour := old(buttons[i]).colour, colourIndex := old(buttons[i]).colourIndex)
        else old(currentColour)
    {
      var button := buttons[i];
      if 0 <= mouse.x - button.x && mouse.x - button.x < BUTTON_SIZE &&
         0 <= mouse.y - button.y && mouse.y - button.y < BUTTON_SIZE
      {
        currentColour := currentColour.(colour := button.colour, colourIndex := button.colourIndex);
      }
      buttons[i] := button.(selected := false);
    }

    /** sprite_select on tile i: a hit copies only the tile's index into the
        current sprite; the tile is deselected either way. */
    method SpriteSelect(i: int, mouse: MouseInput)
      requires 0 <= i < sheet.Length
      modifies sheet, this`currentSprite
      ensures sheet[..] == old(sheet[..])[i := old(sheet[i]).(selected := false)]
      ensures currentSprite ==
        if TileHit(old(sheet[i]), mouse) then old(currentSprite).(index := old(sheet[i]).index) else old(currentSprite)
    {
      var sprite := sheet[i];
      if sprite.x <= mouse.x && mouse.x < sprite.x + 2 * TILE_SIZE &&
         sprite.y <= mouse.y && mouse.y < sprite.y + 2 * TILE_SIZE
      {
        currentSprite := currentSprite.(index := sprite.index);
      }
      sheet[i] := sprite.(selected := false);
    }

    /** draw_pixel: writes the current colour's index into cell (pixelX,
        pixelY) of the sheet's tile at the current sprite's index. */
    method DrawPixel(pixelX: int, pixelY: int)
      requires 0 <= currentSprite.index < sheet.Length
      requires |sheet[currentSprite.index].colourData| == TILE_CELLS
      requires 0 <= pixelX < TILE_SIZE && 0 <= pixelY < TILE_SIZE
      modifies sheet
      ensures sheet[..] == old(sheet[..])[currentSprite.index :=
        Paint(old(sheet[currentSprite.index]), pixelX, pixelY, currentColour.colourIndex)]
    {
      var t := currentSprite.index;
      sheet[t] := sheet[t].(colourData := sheet[t].colourData[pixelX + TILE_SIZE * pixelY := currentColour.colourIndex]);
    }

    /** The tile t after a click: selected exactly when it is the current
        one, and painted when it is and the click falls on a cell. */
    ghost function Clicked(s: Sprite, t: int, mouse: MouseInput): Sprite
      reads this
      requires |s.colourData| == TILE_CELLS
    {
      var s' := s.(selected := t == currentSprite.index);
      if PaintsCell(mouse) && t == currentSprite.index
      then Paint(s', PixelX(mouse.x), PixelY(mouse.y), currentColour.colourIndex)
      else s'
    }

    /** Lines 229-233 of main: colour_select on every button in array order,
        then the current colour's button is selected again. */
    method ScanButtons(mouse: MouseInput)
      requires Laid()
      modifies buttons, this`currentColour
      ensures Laid()
      ensures currentColour == PickColour(old(buttons[..]), mouse, old(currentColour))
      ensures forall b :: 0 <= b < COLOURS ==>
        buttons[b] == old(buttons[b]).(selected := b == currentColour.colourIndex)
    {
      ghost var bs0, c0 := buttons[..], currentColour;
      for i := 0 to COLOURS
        invariant buttons[..] == seq(COLOURS, b requires 0 <= b < COLOURS => if b < i then bs0[b].(selected := false) else bs0[b])
        invariant currentColour == TakeColour(c0, bs0, LastTrue(ButtonHits(bs0, mouse)[..i]))
      {
        LastTrueStep(ButtonHits(bs0, mouse), i);
        ColourSelect(i, mouse);
      }
      assert ButtonHits(bs0, mouse)[..COLOURS] == ButtonHits(bs0, mouse);
      assert 0 <= currentColour.colourIndex < COLOURS;
      assert forall b :: 0 <= b < COLOURS ==> buttons[b] == bs0[b].(selected := false);
      buttons[currentColour.colourIndex] := buttons[currentColour.colourIndex].(selected := true);
    }

    /** Lines 234-238 of main: sprite_select on every tile in array order,
        then the current sprite's tile is selected again. */
    method ScanTiles(mouse: MouseInput)
      requires Laid()
      modifies sheet, this`currentSprite
      ensures Laid()
      ensures currentSprite == PickTile(old(sheet[..]), mouse, old(currentSprite))
      ensures forall t :: 0 <= t < N_TILES ==>
        sheet[t] == old(sheet[t]).(selected := t == currentSprite.index)
    {
      ghost var ts0, s0 := sheet[..], currentSprite;
      for i := 0 to N_TILES
        invariant sheet[..] == seq(N_TILES, t requires 0 <= t < N_TILES => if t < i then ts0[t].(selected := false) else ts0[t])
        invariant currentSprite == TakeIndex(s0, ts0, LastTrue(TileHits(ts0, mouse)[..i]))
      {
        LastTrueStep(TileHits(ts0, mouse), i);
        SpriteSelect(i, mouse);
      }
      assert TileHits(ts0, mouse)[..N_TILES] == TileHits(ts0, mouse);
      assert 0 <= currentSprite.index < N_TILES;
      assert forall t :: 0 <= t < N_TILES ==> sheet[t] == ts0[t].(selected := false);
      sheet[currentSprite.index] := sheet[currentSprite.index].(selected := true);
    }

    /** The input step of the main loop. With the button held: every button
        and every tile is hit-tested in array order, the last hit of each
        becomes current and the only one selected, and a click that maps to
        a canvas cell paints it in the current tile. */
    method ProcessClick(mouse: MouseInput)
      requires Valid()
      modifies buttons, sheet, this`currentColour, this`currentSprite
      ensures Valid()
      ensures !mouse.click ==> unchanged(this, buttons, sheet)
      ensures mouse.click ==> currentColour == PickColour(old(buttons[..]), mouse, old(currentColour))
      ensures mouse.click ==> currentSprite == PickTile(old(sheet[..]), mouse, old(currentSprite))
      ensures mouse.click ==> forall b :: 0 <= b < COLOURS ==>
        buttons[b] == old(buttons[b]).(selected := b == currentColour.colourIndex)
      ensures mouse.click ==> forall t :: 0 <= t < N_TILES ==>
        sheet[t] == Clicked(old(sheet[t]), t, mouse)
    {
      if mouse.click {
        ghost var ts0 := sheet[..];
        ScanButtons(mouse);
        ScanTiles(mouse);
        ghost var ts1 := sheet[..];
        var pixelX := CDiv(mouse.x - (SCREEN_WIDTH / 2 - RENDER_SIZE * TILE_SIZE / 2), RENDER_SIZE);
        var pixelY := CDiv(mouse.y - (SCREEN_HEIGHT / 2 - RENDER_SIZE * TILE_SIZE / 2), RENDER_SIZE);
        if pixelX >= 0 && pixelX < TILE_SIZE && pixelY >= 0 && pixelY < TILE_SIZE {
          ghost var k := currentSprite.index;
          assert ts1[k] == ts0[k].(selected := true);
          assert PaintsCell(mouse) && PixelX(mouse.x) == pixelX && PixelY(mouse.y) == pixelY;
          DrawPixel(pixelX, pixelY);
          PaintReadBack(ts1[k], pixelX, pixelY, currentColour.colourIndex);
          assert sheet[..] == ts1[k := Paint(ts1[k], pixelX, pixelY, currentColour.colourIndex)];
          forall t | 0 <= t < N_TILES
            ensures sheet[t] == Clicked(ts0[t], t, mouse)
          {
            if t == k {
              assert Clicked(ts0[t], t, mouse) == Paint(ts1[k], pixelX, pixelY, currentColour.colourIndex);
            } else {
              assert Clicked(ts0[t], t, mouse) == ts1[t];
            }
          }
          assert TilesInLayout(sheet[..]);
        } else {
          assert !PaintsCell(mouse);
        }
      }
    }

    /** What a redraw puts at (x, y) in one of the three areas: the button,
        the canvas cell or the thumbnail under it. */
    ghost function Picture(x: int, y: int): Colour
      reads this, buttons, sheet
      requires Laid() && InFrame(x, y)
    {
      if InPaletteArea(x, y) then PalettePixel(buttons[..], x, y)
      else if InCanvasArea(x, y) then CanvasPixel(palette, sheet[currentSprite.index], x - CANVAS_X, y - CANVAS_Y)
      else SheetPixel(palette, sheet[..], x, y)
    }

    /** The buffer holds the picture of the current state in all three areas. */
    ghost predicate Shows()
      reads this, pixels, buttons, sheet
      requires Laid()
    {
      forall x, y | OnScreen(x, y) && InFrame(x, y) :: pixels[Index(x, y)] == Picture(x, y)
    }

    /** The drawing step of the main loop: the palette buttons, the canvas
        and the sprite sheet, each area showing its own element; the rest of
        the buffer is left alone. */
    method Render()
      requires Valid()
      modifies pixels
      ensures Laid() && Shows()
      ensures forall x, y | OnScreen(x, y) && !InFrame(x, y) :: pixels[Index(x, y)] == old(pixels[Index(x, y)])
    {
      for i := 0 to COLOURS
        invariant forall x, y | OnScreen(x, y) ::
                    pixels[Index(x, y)] ==
                      (if InPaletteArea(x, y) && ButtonUnder(x, y) < i then PalettePixel(buttons[..], x, y)
                       else old(pixels[Index(x, y)]))
      {
        assert buttons[..][i] == buttons[i];
        DrawColourButton(pixels, buttons[i]);
        forall x, y | OnScreen(x, y)
          ensures InSquare(x, y, ButtonX(i), ButtonY(i), BUTTON_SIZE) <==> InPaletteArea(x, y) && ButtonUnder(x, y) == i
        {
          ButtonSquare(i, x, y);
        }
      }
      assert sheet[..][currentSprite.index] == sheet[currentSprite.index];
      DrawCanvas(pixels, palette, sheet, currentSprite);
      DrawSpriteSheet(pixels, palette, sheet);
      forall x, y {
        AreasDisjoint(x, y);
      }
    }
  }
}
