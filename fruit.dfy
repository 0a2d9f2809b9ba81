/**
 * The fruit (fruit.py): one position, reset to a fixed cell near the centre
 * and moved by a random draw on each side of the grid.
 */
module FruitModel {
  import opened Settings
  import opened Grid
  import opened Arithmetic

  /** Python's random.randrange(start, stop, step) for a positive step draws
      start + step * k for k below n = ceil((stop - start) / step), and raises
      ValueError when n <= 0. This is the set it draws from. */
  function RandRange(start: int, stop: int, step: int): (r: set<int>)
    requires step > 0
    ensures forall v :: v in r <==> start <= v < stop && (v - start) % step == 0
    ensures r != {} <==> start < stop
  {
    var n := (stop - start + step - 1) / step;
    DrawsMembers(start, stop, step, n);
    assert start < stop ==> start in Draws(start, step, n);
    Draws(start, step, n)
  }

  /** The values start + step * k for 0 <= k < n. */
  function Draws(start: int, step: int, n: int): set<int> {
    set k | 0 <= k < n :: start + step * k
  }

  /** Draws with n = ceil((stop - start) / step) holds exactly the values of
      [start, stop) that are a whole number of steps above start. */
  lemma DrawsMembers(start: int, stop: int, step: int, n: int)
    requires step > 0 && n == (stop - start + step - 1) / step
    ensures forall v :: v in Draws(start, step, n) <==> start <= v < stop && (v - start) % step == 0
  {
    forall v | v in Draws(start, step, n)
      ensures start <= v < stop && (v - start) % step == 0
    {
      var k :| 0 <= k < n && v == start + step * k;
      DrawnIsInRange(start, stop, step, n, k);
    }
    forall v | start <= v < stop && (v - start) % step == 0
      ensures v in Draws(start, step, n)
    {
      InRangeIsDrawn(start, stop, step, n, v);
    }
  }

  /** The k-th draw lies in [start, stop). */
  lemma DrawnIsInRange(start: int, stop: int, step: int, n: int, k: int)
    requires step > 0 && n == (stop - start + step - 1) / step && 0 <= k < n
    ensures start <= start + step * k < stop && (step * k) % step == 0
  {
    var a := stop - start + step - 1;
    assert a == step * n + a % step;
    MulNonneg(step, k);
    MulNonneg(step, n - 1 - k);
    assert step * n == step * k + step * (n - 1 - k) + step;
    ModMultiple(step, k);
  }

  /** A value of [start, stop) a whole number of steps above start is a draw. */
  lemma InRangeIsDrawn(start: int, stop: int, step: int, n: int, v: int)
    requires step > 0 && n == (stop - start + step - 1) / step
    requires start <= v < stop && (v - start) % step == 0
    ensures var k := (v - start) / step; 0 <= k < n && v == start + step * k
  {
    var a := stop - start + step - 1;
    assert a == step * n + a % step;
    var k := (v - start) / step;
    assert v - start == step * k;
    if k <= -1 {
      MulNeg(step, k);
    }
    if k >= n {
      MulMonotone(step, n, k);
    }
  }

  /** The cells set_random_pos can choose: the x range starts one block in
      from grid.x but stops one block short of grid.width, which is not
      offset by grid.x; the same for y with grid.y and grid.height. */
  function FruitCells(s: Config, grid: Rect): (r: set<Cell>)
    requires s.blockSize > 0
    ensures forall p :: p in r <==>
      && grid.x + s.blockSize <= p.0 < grid.width - s.blockSize
      && (p.0 - (grid.x + s.blockSize)) % s.blockSize == 0
      && grid.y + s.blockSize <= p.1 < grid.height - s.blockSize
      && (p.1 - (grid.y + s.blockSize)) % s.blockSize == 0
  {
    var xs := RandRange(grid.x + s.blockSize, grid.width - s.blockSize, s.blockSize);
    var ys := RandRange(grid.y + s.blockSize, grid.height - s.blockSize, s.blockSize);
    set x, y | x in xs && y in ys :: (x, y)
  }

  /** The fruit's starting cell: (blockSize * gridBlocks) // 2 + grid.x on both
      axes. Python floors; Dafny's division agrees for the divisor 2. */
  function FruitStart(s: Config, grid: Rect): (r: Cell)
    ensures r.0 == r.1
    ensures 2 * (r.0 - grid.x) <= s.blockSize * s.gridBlocks < 2 * (r.0 - grid.x) + 2
  {
    var startXY := (s.blockSize * s.gridBlocks) / 2 + grid.x;
    (startXY, startXY)
  }

  /** With the shipped settings each coordinate takes one of seven values,
      128 to 320: the fruit never reaches the last four columns or rows of
      the grid (352 to 448; the grid's cells run from 96 to 448), three more
      than the one-block margin. The start cell is one of them. */
  lemma ShippedFruitCells()
    ensures RandRange(96 + 32, 384 - 32, 32) == {128, 160, 192, 224, 256, 288, 320}
    ensures forall p :: p in FruitCells(Shipped, GridRect(Shipped)) <==>
              p.0 in {128, 160, 192, 224, 256, 288, 320} &&
              p.1 in {128, 160, 192, 224, 256, 288, 320}
    ensures FruitStart(Shipped, GridRect(Shipped)) == (288, 288)
    ensures FruitStart(Shipped, GridRect(Shipped)) in FruitCells(Shipped, GridRect(Shipped))
  {
  }

  /** A Playable configuration gives the fruit at least two cells to choose
      from, so a redraw that must differ from a given cell can succeed. */
  lemma PlayableHasTwoFruitCells(s: Config)
    requires Playable(s)
    ensures var g := GridRect(s);
            var a := (g.x + s.blockSize, g.y + s.blockSize);
            var b := (g.x + 2 * s.blockSize, g.y + s.blockSize);
            a in FruitCells(s, g) && b in FruitCells(s, g) && a != b
  {
    var g := GridRect(s);
    var bs := s.blockSize;
    var spare := s.gridBlocks - s.borderBlocks - 3;
    assert g.width - bs - (g.x + 2 * bs) == bs * spare by {
      assert g.x == bs * s.borderBlocks && g.width == bs * s.gridBlocks;
    }
    MulPos(bs, spare);
    assert (g.x + 2 * bs - (g.x + bs)) % bs == 0 by {
      assert g.x + 2 * bs - (g.x + bs) == bs * 1;
      ModMultiple(bs, 1);
    }
    assert (g.x + bs - (g.x + bs)) % bs == 0;
  }

  class Fruit {
    const settings: Config
    const grid: Rect
    var pos: Cell

    /** The fruit is created at its starting cell. */
    constructor (settings: Config, grid: Rect)
      ensures this.settings == settings && this.grid == grid
      ensures pos == FruitStart(settings, grid)
    {
      this.settings := settings;
      this.grid := grid;
      new;
      Reset();
    }

    method Reset()
      modifies this
      ensures pos == FruitStart(settings, grid)
    {
      var startXY := (settings.blockSize * settings.gridBlocks) / 2 + grid.x;
      pos := (startXY, startXY);
    }

    /** One draw from each of the two ranges. The requires are the cases in
        which randrange would raise ValueError. */
    method SetRandomPos()
      requires settings.blockSize > 0
      requires grid.x + settings.blockSize < grid.width - settings.blockSize
      requires grid.y + settings.blockSize < grid.height - settings.blockSize
      modifies this
      ensures pos in FruitCells(settings, grid)
    {
      var bs := settings.blockSize;
      var xs := RandRange(grid.x + bs, grid.width - bs, bs);
      var ys := RandRange(grid.y + bs, grid.height - bs, bs);
      assert grid.x + bs in xs && grid.y + bs in ys;
      var x :| x in xs;
      var y :| y in ys;
      pos := (x, y);
    }

    /** The redraw loop of the game's fruit collision: it calls set_random_pos
        until the position differs from oldPos, so it ends with a draw from
        FruitCells other than oldPos. The requires is what makes that draw
        exist. */
    method RedrawUntilMoved(oldPos: Cell)
      requires settings.blockSize > 0
      requires exists p :: p in FruitCells(settings, grid) && p != oldPos
      modifies this
      ensures pos in FruitCells(settings, grid) && pos != oldPos
    {
      var p :| p in FruitCells(settings, grid) && p != oldPos;
      pos := p;
    }
  }
}
