/** The editor's screen: a 640×360 pixel buffer addressed by one flat index
    `x + y * SCREEN_WIDTH`, and C's integer division, which truncates toward
    zero where Dafny's is Euclidean. */
module Geometry {

  const SCREEN_WIDTH: int := 640
  const SCREEN_HEIGHT: int := 360
  const SCREEN_SIZE: int := SCREEN_WIDTH * SCREEN_HEIGHT

  /** A packed 32-bit RGBA value, as stored in the pixel buffer and the palette. */
  type Colour = c: int | 0 <= c < 0x1_0000_0000

  predicate OnScreen(x: int, y: int)
  {
    0 <= x < SCREEN_WIDTH && 0 <= y < SCREEN_HEIGHT
  }

  /** The flat buffer index of screen point (x, y). */
  function Index(x: int, y: int): int
  {
    x + y * SCREEN_WIDTH
  }

  /** Every point on screen has its own cell of the buffer. */
  lemma IndexInBounds(x: int, y: int)
    requires OnScreen(x, y)
    ensures 0 <= Index(x, y) < SCREEN_SIZE
  {
  }

  /** Every cell of the buffer is the cell of exactly one point on screen, so
      a statement about all points on screen is one about the whole buffer. */
  lemma IndexCovers(k: int)
    requires 0 <= k < SCREEN_SIZE
    ensures OnScreen(k % SCREEN_WIDTH, k / SCREEN_WIDTH)
    ensures Index(k % SCREEN_WIDTH, k / SCREEN_WIDTH) == k
  {
  }

  lemma IndexInjective(x1: int, y1: int, x2: int, y2: int)
    requires OnScreen(x1, y1) && OnScreen(x2, y2)
    requires Index(x1, y1) == Index(x2, y2)
    ensures x1 == x2 && y1 == y2
  {
  }

  /** The half-open square of side `size` whose top-left corner is (left, top). */
  predicate InSquare(x: int, y: int, left: int, top: int, size: int)
  {
    left <= x < left + size && top <= y < top + size
  }

  predicate SquareOnScreen(left: int, top: int, size: int)
  {
    0 <= left && left + size <= SCREEN_WIDTH && 0 <= top && top + size <= SCREEN_HEIGHT
  }

  /** The progress of a column-major double loop over a square: every column
      left of `i` is done, and column `i` is done above row `j`. */
  predicate ColumnsDone(x: int, y: int, left: int, top: int, size: int, i: int, j: int)
  {
    InSquare(x, y, left, top, size) && (x - left < i || (x - left == i && y - top < j))
  }

  /** C's `/` for a positive divisor: the quotient rounded toward zero, so
      the remainder takes the sign of the dividend. */
  function CDiv(a: int, d: int): (q: int)
    requires d > 0
    ensures 0 <= a ==> 0 <= a - q * d < d
    ensures a < 0 ==> -d < a - q * d <= 0
  {
    if a >= 0 then a / d else -((-a) / d)
  }

  /** C's `%` for a positive divisor. */
  function CMod(a: int, d: int): (r: int)
    requires d > 0
    ensures 0 <= a ==> 0 <= r < d
    ensures a < 0 ==> -d < r <= 0
  {
    a - CDiv(a, d) * d
  }

  /** For the divisor 24, C's remainder is zero exactly when Dafny's is. */
  lemma CModZero24(a: int)
    ensures CMod(a, 24) == 0 <==> a % 24 == 0
  {
  }

  /** On a non-negative dividend the two divisions agree. */
  lemma CDivOfNatural(a: int, d: int)
    requires 0 <= a && d > 0
    ensures CDiv(a, d) == a / d
  {
  }
}
