/**
 * The snake (snake.py): an ordered list of blocks, head first, the direction
 * it is moving in, and two flags that live for one frame.
 */
module SnakeModel {
  import opened Settings
  import opened Grid
  import opened Arithmetic

  datatype Dir = NONE | UP | DOWN | LEFT | RIGHT

  /** The exact opposite of a direction; NONE has none. */
  function Opposite(d: Dir): Dir {
    match d
    case NONE => NONE
    case UP => DOWN
    case DOWN => UP
    case LEFT => RIGHT
    case RIGHT => LEFT
  }

  /** p and q are neighbours: bs apart along one axis and equal on the other. */
  predicate Adjacent(p: Cell, q: Cell, bs: int) {
    || (p.0 == q.0 && (p.1 - q.1 == bs || q.1 - p.1 == bs))
    || (p.1 == q.1 && (p.0 - q.0 == bs || q.0 - p.0 == bs))
  }

  /** Every block is the neighbour of the next one. */
  predicate Connected(blocks: seq<Cell>, bs: int) {
    forall i :: 0 <= i < |blocks| - 1 ==> Adjacent(blocks[i], blocks[i + 1], bs)
  }

  /** Both coordinates of p are a whole number of blocks from origin. */
  predicate Aligned(p: Cell, origin: int, bs: int)
    requires bs > 0
  {
    (p.0 - origin) % bs == 0 && (p.1 - origin) % bs == 0
  }

  /** Every block is Aligned. */
  predicate AllAligned(blocks: seq<Cell>, origin: int, bs: int)
    requires bs > 0
  {
    forall i :: 0 <= i < |blocks| ==> Aligned(blocks[i], origin, bs)
  }

  /** The starting blocks: for i = 3, 2, 1 the block
      (i * blockSize + grid.x, blockSize + grid.x). The y coordinate is taken
      from grid.x, not grid.y. */
  function StartBlocks(s: Config, grid: Rect): (r: seq<Cell>)
    ensures r == [(grid.x + 3 * s.blockSize, grid.x + s.blockSize),
                  (grid.x + 2 * s.blockSize, grid.x + s.blockSize),
                  (grid.x + s.blockSize, grid.x + s.blockSize)]
    ensures Connected(r, s.blockSize)
  {
    seq(3, j requires 0 <= j < 3 => ((3 - j) * s.blockSize + grid.x, s.blockSize + grid.x))
  }

  /** The head moved one block in direction d: UP lowers y, DOWN raises y,
      LEFT lowers x, RIGHT raises x; NONE does not move. */
  function NextHead(head: Cell, d: Dir, bs: int): (r: Cell)
    ensures d != NONE ==> Adjacent(r, head, bs)
    ensures d == NONE ==> r == head
  {
    match d
    case NONE => head
    case UP => (head.0, head.1 - bs)
    case DOWN => (head.0, head.1 + bs)
    case LEFT => (head.0 - bs, head.1)
    case RIGHT => (head.0 + bs, head.1)
  }

  /** insert(0, head), then pop() unless the snake is growing. */
  function Advance(blocks: seq<Cell>, head: Cell, grow: bool): (r: seq<Cell>)
    ensures |r| == |blocks| + (if grow then 1 else 0)
    ensures |r| > 0 ==> r[0] == head
    ensures forall i :: 1 <= i < |r| ==> r[i] == blocks[i - 1]
  {
    var inserted := [head] + blocks;
    if grow then inserted else inserted[..|inserted| - 1]
  }

  /** The blocks after one call of update. */
  function Moved(blocks: seq<Cell>, d: Dir, grow: bool, bs: int): (r: seq<Cell>)
    requires |blocks| > 0
    ensures d == NONE ==> r == blocks
    ensures d != NONE ==> |r| == |blocks| + (if grow then 1 else 0)
    ensures d != NONE ==> r[0] == NextHead(blocks[0], d, bs)
    ensures d != NONE ==> forall i :: 1 <= i < |r| ==> r[i] == blocks[i - 1]
  {
    if d == NONE then blocks else Advance(blocks, NextHead(blocks[0], d, bs), grow)
  }

  /** Moving keeps the blocks connected and never shortens the snake. */
  lemma MovedKeepsConnected(blocks: seq<Cell>, d: Dir, grow: bool, bs: int)
    requires |blocks| > 0 && Connected(blocks, bs)
    ensures Connected(Moved(blocks, d, grow, bs), bs)
    ensures |Moved(blocks, d, grow, bs)| >= |blocks|
  {
  }

  /** Moving keeps every block a whole number of blocks from the origin. */
  lemma MovedKeepsAligned(blocks: seq<Cell>, d: Dir, grow: bool, origin: int, bs: int)
    requires bs > 0 && |blocks| > 0 && AllAligned(blocks, origin, bs)
    ensures AllAligned(Moved(blocks, d, grow, bs), origin, bs)
  {
    var h := blocks[0];
    assert Aligned(h, origin, bs);
    ModShift(bs, h.0 - origin);
    ModShift(bs, h.1 - origin);
    assert h.0 + bs - origin == h.0 - origin + bs && h.0 - bs - origin == h.0 - origin - bs;
    assert h.1 + bs - origin == h.1 - origin + bs && h.1 - bs - origin == h.1 - origin - bs;
    var r := Moved(blocks, d, grow, bs);
    if d != NONE {
      assert Aligned(r[0], origin, bs);
      forall i | 1 <= i < |r|
        ensures Aligned(r[i], origin, bs)
      {
        assert r[i] == blocks[i - 1];
      }
    }
  }

  /** The starting blocks are a whole number of blocks from grid.x on both
      axes. */
  lemma StartBlocksAligned(s: Config, grid: Rect)
    requires s.blockSize > 0
    ensures AllAligned(StartBlocks(s, grid), grid.x, s.blockSize)
  {
    var bs := s.blockSize;
    ModMultiple(bs, 1);
    ModMultiple(bs, 2);
    ModMultiple(bs, 3);
    assert bs * 1 == bs && bs * 2 == 2 * bs && bs * 3 == 3 * bs;
  }

  /** Moving and then moving back returns the head to where it was. */
  lemma NextHeadOpposite(head: Cell, d: Dir, bs: int)
    ensures NextHead(NextHead(head, d, bs), Opposite(d), bs) == head
  {
  }

  /** The tail is popped before anything looks at the list: a head that moves
      into the cell the tail is leaving is on the body afterwards only if that
      cell also occurs further up the body, whereas on a growing step the
      tail stays and the same move always meets it. */
  lemma IntoVacatedTail(blocks: seq<Cell>)
    requires |blocks| >= 2
    ensures var tail := blocks[|blocks| - 1];
            var r := Advance(blocks, tail, false);
            (tail in r[1..] <==> tail in blocks[..|blocks| - 1])
    ensures var tail := blocks[|blocks| - 1];
            tail in Advance(blocks, tail, true)[1..]
  {
    var tail := blocks[|blocks| - 1];
    var r := Advance(blocks, tail, false);
    assert r[1..] == blocks[..|blocks| - 1];
    assert Advance(blocks, tail, true)[1..] == blocks;
  }

  class Snake {
    const settings: Config
    const grid: Rect
    var blocks: seq<Cell>
    var direction: Dir
    var eatenFruit: bool
    var changingDirection: bool

    /** At least the three starting blocks, each next to the following one,
        and each a whole number of blocks from grid.x on both axes. */
    ghost predicate Valid()
      reads this
    {
      && |blocks| >= 3 && Connected(blocks, settings.blockSize)
      && (settings.blockSize > 0 ==> AllAligned(blocks, grid.x, settings.blockSize))
    }

    /** The snake is created and put in its starting state. */
    constructor (settings: Config, grid: Rect)
      ensures this.settings == settings && this.grid == grid
      ensures Valid()
      ensures blocks == StartBlocks(settings, grid)
      ensures direction == NONE && !eatenFruit && !changingDirection
    {
      this.settings := settings;
      this.grid := grid;
      new;
      Reset();
    }

    method Reset()
      modifies this
      ensures Valid()
      ensures blocks == StartBlocks(settings, grid)
      ensures direction == NONE && !eatenFruit && !changingDirection
    {
      var bs := settings.blockSize;
      if bs > 0 {
        StartBlocksAligned(settings, grid);
      }
      blocks := seq(3, j requires 0 <= j < 3 => ((3 - j) * bs + grid.x, bs + grid.x));
      direction := NONE;
      eatenFruit := false;
      changingDirection := false;
    }

    /** One frame of movement. Without a direction nothing happens. */
    method Update()
      requires Valid()
      modifies this
      ensures Valid()
      ensures blocks == Moved(old(blocks), old(direction), old(eatenFruit), settings.blockSize)
      ensures |blocks| >= |old(blocks)|
      ensures direction == old(direction)
      ensures old(direction) == NONE ==>
                eatenFruit == old(eatenFruit) && changingDirection == old(changingDirection)
      ensures old(direction) != NONE ==> !eatenFruit && !changingDirection
    {
      MovedKeepsConnected(blocks, direction, eatenFruit, settings.blockSize);
      if settings.blockSize > 0 {
        MovedKeepsAligned(blocks, direction, eatenFruit, grid.x, settings.blockSize);
      }
      if direction != NONE {
        var bs := settings.blockSize;
        var x, y := blocks[0].0, blocks[0].1;
        if direction == UP {
          y := y - bs;
        }
        if direction == DOWN {
          y := y + bs;
        }
        if direction == LEFT {
          x := x - bs;
        }
        if direction == RIGHT {
          x := x + bs;
        }
        blocks := [(x, y)] + blocks;
        if !eatenFruit {
          blocks := blocks[..|blocks| - 1];
        }
        eatenFruit := false;
        changingDirection := false;
      }
    }
  }
}
