/** Hit-testing: which colour button and which sprite tile a click picks,
    and which canvas cell it paints. */
module Selection {
  import opened Geometry
  import opened Layout

  datatype Option<T> = None | Some(value: T)

  /** colour_select's test, written on the offsets from the button's corner. */
  predicate ButtonHit(b: ColourButton, m: MouseInput)
  {
    0 <= m.x - b.x < BUTTON_SIZE && 0 <= m.y - b.y < BUTTON_SIZE
  }

  /** sprite_select's test, written on the tile's edges. */
  predicate TileHit(s: Sprite, m: MouseInput)
  {
    s.x <= m.x < s.x + 2 * TILE_SIZE && s.y <= m.y < s.y + 2 * TILE_SIZE
  }

  /** The index of the last true flag, if there is one. */
  function LastTrue(hits: seq<bool>): (r: Option<nat>)
    ensures r.Some? ==> r.value < |hits| && hits[r.value]
    ensures r.Some? ==> forall k :: r.value < k < |hits| ==> !hits[k]
    ensures r.None? <==> forall k :: 0 <= k < |hits| ==> !hits[k]
  {
    if |hits| == 0 then None
    else if hits[|hits| - 1] then Some(|hits| - 1)
    else LastTrue(hits[..|hits| - 1])
  }

  /** Scanning one more candidate: a hit takes over, a miss keeps the last winner. */
  lemma LastTrueStep(hits: seq<bool>, i: int)
    requires 0 <= i < |hits|
    ensures LastTrue(hits[..i + 1]) == if hits[i] then Some(i) else LastTrue(hits[..i])
  {
    assert hits[..i + 1][..i] == hits[..i];
  }

  /** When exactly one flag is set, it is the one found. */
  lemma LastTrueUnique(hits: seq<bool>, u: nat)
    requires u < |hits| && forall k :: 0 <= k < |hits| ==> (hits[k] <==> k == u)
    ensures LastTrue(hits) == Some(u)
  {
  }

  function ButtonHits(bs: seq<ColourButton>, m: MouseInput): seq<bool>
  {
    seq(|bs|, i requires 0 <= i < |bs| => ButtonHit(bs[i], m))
  }

  function TileHits(ts: seq<Sprite>, m: MouseInput): seq<bool>
  {
    seq(|ts|, i requires 0 <= i < |ts| => TileHit(ts[i], m))
  }

  /** The current colour once the scan has settled on `winner`: the
      winner lends its colour and index, and with no winner the current
      colour stays as it was. */
  function TakeColour(current: ColourButton, bs: seq<ColourButton>, winner: Option<nat>): ColourButton
    requires winner.Some? ==> winner.value < |bs|
  {
    match winner
    case None => current
    case Some(k) => current.(colour := bs[k].colour, colourIndex := bs[k].colourIndex)
  }

  /** The current colour after colour_select has seen every button in array
      order: the last button hit wins. */
  function PickColour(bs: seq<ColourButton>, m: MouseInput, current: ColourButton): ColourButton
  {
    TakeColour(current, bs, LastTrue(ButtonHits(bs, m)))
  }

  /** The current sprite once the scan has settled on `winner`: only its
      index moves. */
  function TakeIndex(current: Sprite, ts: seq<Sprite>, winner: Option<nat>): Sprite
    requires winner.Some? ==> winner.value < |ts|
  {
    match winner
    case None => current
    case Some(k) => current.(index := ts[k].index)
  }

  /** The current sprite after sprite_select has seen every tile: the last
      tile hit wins. */
  function PickTile(ts: seq<Sprite>, m: MouseInput, current: Sprite): Sprite
  {
    TakeIndex(current, ts, LastTrue(TileHits(ts, m)))
  }

  // ---------------------------------------------------------------------
  // Picking under the start-up layout.

  /** The buttons keep the colour, index and corner the start-up loop gave them. */
  predicate ButtonsInLayout(palette: seq<Colour>, bs: seq<ColourButton>)
  {
    ValidPalette(palette) && |bs| == COLOURS &&
    forall b :: 0 <= b < COLOURS ==>
      bs[b].colour == palette[b] && bs[b].colourIndex == b && bs[b].x == ButtonX(b) && bs[b].y == ButtonY(b)
  }

  /** The tiles keep the index and corner the start-up loop gave them, and
      every cell names a palette entry. */
  predicate TilesInLayout(ts: seq<Sprite>)
  {
    |ts| == N_TILES &&
    forall t :: 0 <= t < N_TILES ==>
      ts[t].index == t && ts[t].x == TileX(t) && ts[t].y == TileY(t) && ValidTileData(ts[t].colourData)
  }

  /** A click picks the button under the mouse, and keeps the current colour
      when it lands outside the palette area; overlapping hits cannot occur. */
  lemma PickColourInLayout(palette: seq<Colour>, bs: seq<ColourButton>, m: MouseInput, current: ColourButton)
    requires ButtonsInLayout(palette, bs)
    ensures PickColour(bs, m, current) ==
      if InPaletteArea(m.x, m.y)
      then current.(colour := palette[ButtonUnder(m.x, m.y)], colourIndex := ButtonUnder(m.x, m.y))
      else current
  {
    var hits := ButtonHits(bs, m);
    forall b | 0 <= b < COLOURS
      ensures hits[b] <==> InPaletteArea(m.x, m.y) && ButtonUnder(m.x, m.y) == b
    {
      ButtonSquare(b, m.x, m.y);
    }
    if InPaletteArea(m.x, m.y) {
      LastTrueUnique(hits, ButtonUnder(m.x, m.y));
    }
  }

  /** A click picks the tile under the mouse, and keeps the current tile
      when it lands outside the sheet. */
  lemma PickTileInLayout(ts: seq<Sprite>, m: MouseInput, current: Sprite)
    requires TilesInLayout(ts)
    ensures PickTile(ts, m, current) ==
      if InSheetArea(m.x, m.y) then current.(index := TileUnder(m.x, m.y)) else current
  {
    var hits := TileHits(ts, m);
    forall t | 0 <= t < N_TILES
      ensures hits[t] <==> InSheetArea(m.x, m.y) && TileUnder(m.x, m.y) == t
    {
      TileSquare(t, m.x, m.y);
    }
    if InSheetArea(m.x, m.y) {
      LastTrueUnique(hits, TileUnder(m.x, m.y));
    }
  }

  // ---------------------------------------------------------------------
  // From the mouse to a canvas cell, with C's truncating division.

  function PixelX(mouseX: int): int
  {
    CDiv(mouseX - CANVAS_X, RENDER_SIZE)
  }

  function PixelY(mouseY: int): int
  {
    CDiv(mouseY - CANVAS_Y, RENDER_SIZE)
  }

  /** The guard in front of draw_pixel. */
  predicate PaintsCell(m: MouseInput)
  {
    0 <= PixelX(m.x) < TILE_SIZE && 0 <= PixelY(m.y) < TILE_SIZE
  }

  /** The guard lets through x in [201, 416) and y in [61, 276): the canvas
      and, because the quotient is truncated, the 23 pixels left of and
      above it. */
  lemma PaintsCellExactly(m: MouseInput)
    ensures PaintsCell(m) <==>
      CANVAS_X - RENDER_SIZE < m.x < CANVAS_X + CANVAS_SIZE &&
      CANVAS_Y - RENDER_SIZE < m.y < CANVAS_Y + CANVAS_SIZE
  {
  }

  /** Over the canvas, the cell painted is the one draw_canvas shows there. */
  lemma PixelOnCanvas(m: MouseInput)
    requires InCanvasArea(m.x, m.y)
    ensures PixelX(m.x) == (m.x - CANVAS_X) / RENDER_SIZE
    ensures PixelY(m.y) == (m.y - CANVAS_Y) / RENDER_SIZE
  {
  }

  /** Left of the canvas, truncation maps to column 0 where Euclidean
      division would give -1. */
  lemma PixelLeftOfCanvas(mouseX: int)
    requires CANVAS_X - RENDER_SIZE < mouseX < CANVAS_X
    ensures PixelX(mouseX) == 0
    ensures (mouseX - CANVAS_X) / RENDER_SIZE == -1
  {
  }
}
