/**
  Turning a mouse position into a board square. The window is 600 by 600
  pixels with a 30-pixel margin, so each of the eight squares is 67.5 pixels
  wide. Pixel positions are integers; the half-pixel square size is kept
  exact by working with eight times the offset into the board.
 */
module Pixels {
  import opened Board

  const Width: int := 600
  const Height: int := 600
  const Margin: int := 30

  /** The board's side in pixels: eight squares of `squareSize` each. */
  const Side: int := Width - 2 * Margin

  /**
    `getRowCol`: the square holding pixel (x, y), by floor division of the
    offset into the board by the square size. The divisor is positive, so
    Dafny's division floors like the program's `//`.
   */
  function RowColOf(x: int, y: int): (int, int) {
    ((Rows * (y - Margin)) / Side, (Cols * (x - Margin)) / Side)
  }

  /**
    `inBoard` as written: it rejects a click left of or above the board and
    one strictly beyond the right or bottom edge, so the edge line itself,
    x or y equal to 570, is let through.
   */
  predicate InBoardAsWritten(x: int, y: int) {
    !((x < Margin || x > Width - Margin) || (y < Margin || y > Height - Margin))
  }

  /** `inBoard` with the evidently intended half-open bounds: the edge line at 570 is outside. */
  predicate InBoard(x: int, y: int) {
    !((x < Margin || x >= Width - Margin) || (y < Margin || y >= Height - Margin))
  }

  /**
    A click on the right edge line passes `inBoard` as written, yet its column
    is 8, one past the last column, so the click handler's grid read fails.
   */
  lemma EdgeClickOffBoard()
    ensures InBoardAsWritten(Width - Margin, 300)
    ensures RowColOf(Width - Margin, 300) == (4, 8) && !InBounds(4, 8)
  {
  }

  /** The written test accepts exactly the intended pixels plus the right and bottom edge lines. */
  lemma AsWrittenOvershoot(x: int, y: int)
    ensures InBoardAsWritten(x, y)
        <==> InBoard(x, y)
             || (&& Margin <= x <= Width - Margin && Margin <= y <= Height - Margin
                 && (x == Width - Margin || y == Height - Margin))
    ensures InBoardAsWritten(x, y) && !InBoard(x, y) ==> !InBounds(RowColOf(x, y).0, RowColOf(x, y).1)
  {
  }

  /** With the corrected test, a pixel is on the board exactly when its square is. */
  lemma InBoardMeansOnBoard(x: int, y: int)
    ensures InBoard(x, y) <==> InBounds(RowColOf(x, y).0, RowColOf(x, y).1)
  {
  }

  /** The side of one square in half pixels (67.5 pixels). */
  const DoubledSquare: int := 2 * Side / Cols

  /**
    `getDimensions` in half pixels: the corners (2*x0, 2*y0, 2*x1, 2*y1) of
    square (row, col), which are whole numbers although the square size is not.
   */
  function DoubledCorners(row: int, col: int): (int, int, int, int) {
    (col * DoubledSquare + 2 * Margin, row * DoubledSquare + 2 * Margin,
     (col + 1) * DoubledSquare + 2 * Margin, (row + 1) * DoubledSquare + 2 * Margin)
  }

  /** Along one axis, the floor division picks index `q` exactly when the pixel lies in the q-th square. */
  lemma AxisIndex(p: int, q: int)
    ensures (Cols * (p - Margin)) / Side == q <==>
              q * DoubledSquare + 2 * Margin <= 2 * p < (q + 1) * DoubledSquare + 2 * Margin
  {
    assert Side == 540 && DoubledSquare == 135;
    var k := (8 * (p - 30)) / 540;
    assert 540 * k <= 8 * (p - 30) < 540 * k + 540;
    assert 135 * k + 60 <= 2 * p < 135 * k + 195;
    if q < k {
      assert 135 * (q + 1) <= 135 * k;
    } else if q > k {
      assert 135 * (k + 1) <= 135 * q;
    }
  }

  /** `getRowCol` and `getDimensions` agree: a pixel maps to the square whose rectangle holds it. */
  lemma RowColMatchesCorners(x: int, y: int, row: int, col: int)
    ensures RowColOf(x, y) == (row, col) <==>
              var (x0, y0, x1, y1) := DoubledCorners(row, col);
              x0 <= 2 * x < x1 && y0 <= 2 * y < y1
  {
    AxisIndex(x, col);
    AxisIndex(y, row);
  }
}
