/**
 * The geometry of the board, derived from the settings when the game is
 * created: a square playable grid inside a border of borderBlocks blocks on
 * every side of a square window.
 */
module Grid {
  import opened Settings

  /** A position in pixels: (x, y), y growing downwards. */
  type Cell = (int, int)

  /** The four numbers of a pygame Rect that the game reads. */
  datatype Rect = Rect(x: int, y: int, width: int, height: int)

  function GridSize(c: Config): int {
    c.blockSize * c.gridBlocks
  }

  function BorderSize(c: Config): int {
    c.blockSize * c.borderBlocks
  }

  /** The side of the square window: the grid with a border added on each
      side. */
  function ScreenSize(c: Config): int {
    GridSize(c) + 2 * BorderSize(c)
  }

  /** The playable grid, placed inside the border. */
  function GridRect(c: Config): (r: Rect)
    ensures r.x == r.y && r.width == r.height
    ensures r.x + r.width + r.x == ScreenSize(c)
    ensures r.width == c.gridBlocks * c.blockSize
  {
    Rect(BorderSize(c), BorderSize(c), GridSize(c), GridSize(c))
  }

  lemma ShippedGeometry()
    ensures GridRect(Shipped) == Rect(96, 96, 384, 384)
    ensures ScreenSize(Shipped) == 576
  {
  }
}
