/** A session from start-up: pick a colour, pick a tile, paint a cell, redraw,
    and click just beside the palette. */
module Scenario {
  import opened Geometry
  import opened Layout
  import opened Selection
  import opened Raster
  import opened Editor

  /** A fresh editor: colour 0, tile 0, every tile blank. */
  method Start(palette: seq<Colour>) returns (e: Editor)
    requires ValidPalette(palette)
    ensures fresh(e) && fresh(e.pixels) && fresh(e.buttons) && fresh(e.sheet)
    ensures e.Valid() && e.palette == palette
    ensures e.currentColour.colourIndex == 0 && e.currentSprite.index == 0
    ensures forall t :: 0 <= t < N_TILES ==> e.sheet[t].colourData == BlankData()
  {
    e := new Editor(palette);
  }

  /** A click that misses the canvas selects the button and the tile under
      the mouse, if any, and paints nothing. */
  method SelectClick(e: Editor, m: MouseInput)
    requires e.Valid() && m.click && !PaintsCell(m)
    modifies e.buttons, e.sheet, e`currentColour, e`currentSprite
    ensures e.Valid()
    ensures e.currentColour.colourIndex ==
      if InPaletteArea(m.x, m.y) then ButtonUnder(m.x, m.y) else old(e.currentColour.colourIndex)
    ensures e.currentSprite.index ==
      if InSheetArea(m.x, m.y) then TileUnder(m.x, m.y) else old(e.currentSprite.index)
    ensures forall t :: 0 <= t < N_TILES ==> e.sheet[t].colourData == old(e.sheet[t].colourData)
  {
    PickColourInLayout(e.palette, e.buttons[..], m, e.currentColour);
    PickTileInLayout(e.sheet[..], m, e.currentSprite);
    e.ProcessClick(m);
  }

  /** A click on the canvas keeps the current colour and tile and paints
      the cell under the mouse in the current tile. */
  method PaintClick(e: Editor, m: MouseInput)
    requires e.Valid() && m.click && InCanvasArea(m.x, m.y)
    modifies e.buttons, e.sheet, e`currentColour, e`currentSprite
    ensures e.Valid()
    ensures e.currentColour == old(e.currentColour) && e.currentSprite == old(e.currentSprite)
    ensures forall t :: 0 <= t < N_TILES ==>
      e.sheet[t].colourData ==
        if t == e.currentSprite.index
        then old(e.sheet[t].colourData)[PixelX(m.x) + TILE_SIZE * PixelY(m.y) := e.currentColour.colourIndex]
        else old(e.sheet[t].colourData)
  {
    AreasDisjoint(m.x, m.y);
    PaintsCellExactly(m);
    PickColourInLayout(e.palette, e.buttons[..], m, e.currentColour);
    PickTileInLayout(e.sheet[..], m, e.currentSprite);
    e.ProcessClick(m);
  }

  /** Once redrawn, the canvas's top-left pixel shows the first cell of the
      current tile. */
  method CanvasCorner(e: Editor) returns (c: Colour)
    requires e.Laid() && e.Shows()
    ensures c == e.palette[e.sheet[e.currentSprite.index].colourData[0]]
  {
    assert InCanvasArea(CANVAS_X, CANVAS_Y) && !InPaletteArea(CANVAS_X, CANVAS_Y);
    IndexInBounds(CANVAS_X, CANVAS_Y);
    c := e.pixels[Index(CANVAS_X, CANVAS_Y)];
  }

  /** Once redrawn, the pixel one in from the corner of tile t's thumbnail
      shows the tile's first cell. */
  method ThumbCorner(e: Editor, t: int) returns (c: Colour)
    requires e.Laid() && e.Shows() && 0 <= t < N_TILES
    ensures c == e.palette[e.sheet[t].colourData[0]]
  {
    var x, y := TileX(t) + 1, TileY(t) + 1;
    SheetPixelNearCorner(e.palette, e.sheet[..], t);
    AreasDisjoint(x, y);
    IndexInBounds(x, y);
    assert e.sheet[..][t] == e.sheet[t];
    c := e.pixels[Index(x, y)];
  }

  /** A redraw, then the three pixels the session looks at: the canvas's
      corner and the pixels one in from the corners of tiles 3 and 4. */
  method Redraw(e: Editor) returns (canvasCell: Colour, thumbThree: Colour, thumbFour: Colour)
    requires e.Valid()
    modifies e.pixels
    ensures canvasCell == e.palette[e.sheet[e.currentSprite.index].colourData[0]]
    ensures thumbThree == e.palette[e.sheet[3].colourData[0]]
    ensures thumbFour == e.palette[e.sheet[4].colourData[0]]
  {
    e.Render();
    canvasCell := CanvasCorner(e);
    thumbThree := ThumbCorner(e, 3);
    thumbFour := ThumbCorner(e, 4);
  }

  /** On a fresh editor: click button 5, click tile 3, click the canvas's
      top-left corner, click one pixel left of button 5, and redraw. The
      click beside the palette keeps colour 5; the canvas's corner and cell
      (0, 0) of tile 3's thumbnail show palette entry 5, and tile 4's
      thumbnail still shows entry 0. */
  method PaintTileThree(palette: seq<Colour>)
      returns (canvasCell: Colour, thumbCell: Colour, otherThumb: Colour, colourAfterMiss: int)
    requires ValidPalette(palette)
    ensures canvasCell == palette[5]
    ensures thumbCell == palette[5]
    ensures otherThumb == palette[0]
    ensures colourAfterMiss == 5
  {
    var e := Start(palette);

    var onButton := MouseInput(true, 512, 144);
    assert ButtonUnder(onButton.x, onButton.y) == 5;
    SelectClick(e, onButton);
    var onTile := MouseInput(true, 98, 50);
    assert TileUnder(onTile.x, onTile.y) == 3;
    SelectClick(e, onTile);
    var onCanvas := MouseInput(true, CANVAS_X, CANVAS_Y);
    PaintClick(e, onCanvas);
    assert e.currentColour.colourIndex == 5 && e.currentSprite.index == 3;
    assert e.sheet[3].colourData == BlankData()[0 := 5];
    assert e.sheet[4].colourData == BlankData();

    SelectClick(e, MouseInput(true, 511, 144));
    colourAfterMiss := e.currentColour.colourIndex;
    canvasCell, thumbCell, otherThumb := Redraw(e);
  }
}
