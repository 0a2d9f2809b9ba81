/**
 * The game controller (simple_snake.py): the score, whether a game is in
 * progress, key handling, the fruit and game-over checks, and the order in
 * which one frame applies them.
 */
module SimpleSnake {
  import opened Settings
  import opened Grid
  import opened Arithmetic
  import opened SnakeModel
  import opened FruitModel

  /** A key press: one of the four arrows, or any other key. */
  datatype Key = KUp | KDown | KLeft | KRight | KOther

  /** The snake's direction together with its changing_direction lock. */
  datatype Steering = Steering(direction: Dir, changing: bool)

  function ArrowDir(k: Key): Dir {
    match k
    case KUp => UP
    case KDown => DOWN
    case KLeft => LEFT
    case KRight => RIGHT
    case KOther => NONE
  }

  /** A key press while a game is in progress. A locked snake and a non-arrow
      key change nothing; otherwise an arrow is taken, and locks, unless it
      points exactly against the current direction. */
  function Steer(st: Steering, k: Key): (r: Steering)
    ensures st.changing || k == KOther ==> r == st
    ensures !st.changing && k != KOther ==>
              r == if st.direction == Opposite(ArrowDir(k)) then st else Steering(ArrowDir(k), true)
    ensures st.direction != NONE ==> r.direction != Opposite(st.direction)
  {
    if st.changing then st
    else if k == KUp && st.direction != DOWN then Steering(UP, true)
    else if k == KDown && st.direction != UP then Steering(DOWN, true)
    else if k == KLeft && st.direction != RIGHT then Steering(LEFT, true)
    else if k == KRight && st.direction != LEFT then Steering(RIGHT, true)
    else st
  }

  /** Several key presses in one frame, in order. */
  function SteerAll(st: Steering, keys: seq<Key>): (r: Steering)
    ensures st.changing ==> r == st
    decreases |keys|
  {
    if keys == [] then st else SteerAll(Steer(st, keys[0]), keys[1..])
  }

  /** Since the last moving update the lock is off and the direction is d, or
      the lock is on and the direction is not the opposite of d. */
  predicate HeldOrTurned(d: Dir, st: Steering) {
    if st.changing then st.direction != Opposite(d) else st.direction == d
  }

  lemma {:induction false} SteerAllHeldOrTurned(d: Dir, st: Steering, keys: seq<Key>)
    requires HeldOrTurned(d, st)
    ensures HeldOrTurned(d, SteerAll(st, keys))
    decreases |keys|
  {
    if keys != [] {
      var next := Steer(st, keys[0]);
      if !st.changing && next.changing {
        assert next.direction == ArrowDir(keys[0]) && d != Opposite(ArrowDir(keys[0]));
        assert Opposite(next.direction) != d;
      }
      SteerAllHeldOrTurned(d, next, keys[1..]);
    }
  }

  /** However many keys are pressed between two moving updates, the snake
      does not end up heading back the way it moved last. */
  lemma {:induction false} NoReversalBetweenUpdates(d: Dir, keys: seq<Key>)
    requires d != NONE
    ensures SteerAll(Steering(d, false), keys).direction != Opposite(d)
  {
    SteerAllHeldOrTurned(d, Steering(d, false), keys);
  }

  /** Moving right, UP is taken and locks, so the DOWN that follows in the
      same frame is ignored. */
  lemma UpThenDownKeepsUp()
    ensures SteerAll(Steering(RIGHT, false), [KUp, KDown]) == Steering(UP, true)
  {
  }

  /** The four bounds tests of the game-over check; the right and bottom
      limits are grid.width and grid.height plus borderBlocks - 1 blocks.
      On the game's own grid they fail exactly when a block placed at head
      lies wholly inside the grid. */
  predicate OutOfBounds(s: Config, grid: Rect, head: Cell)
    ensures grid == GridRect(s) ==>
              (OutOfBounds(s, grid, head) <==>
                 !(grid.x <= head.0 <= grid.x + grid.width - s.blockSize &&
                   grid.y <= head.1 <= grid.y + grid.height - s.blockSize))
  {
    || head.0 < grid.x
    || head.0 > grid.width + (s.borderBlocks - 1) * s.blockSize
    || head.1 < grid.y
    || head.1 > grid.height + (s.borderBlocks - 1) * s.blockSize
  }

  /** The head is on one of the other blocks. */
  predicate SelfCollision(blocks: seq<Cell>)
    requires |blocks| > 0
  {
    blocks[0] in blocks[1..]
  }

  /** How the body test sees a move: the tail is popped before the test, so
      the new head collides exactly when it lands on a block that is still
      there, the tail included only when the snake grows. */
  lemma MovedSelfCollision(blocks: seq<Cell>, d: Dir, grow: bool, bs: int)
    requires |blocks| > 0 && d != NONE
    ensures SelfCollision(Moved(blocks, d, grow, bs)) <==>
              NextHead(blocks[0], d, bs) in (if grow then blocks else blocks[..|blocks| - 1])
  {
    assert Moved(blocks, d, grow, bs)[1..] == (if grow then blocks else blocks[..|blocks| - 1]);
  }

  /** One axis of the bounds test, for a cell col blocks from the origin. */
  lemma AxisInBounds(bs: int, origin: int, n: int, col: int)
    requires bs > 0
    ensures (origin + bs * col < origin || origin + bs * col > origin + bs * (n - 1))
            <==> !(0 <= col < n)
  {
    if col < 0 {
      MulNeg(bs, col);
    } else {
      MulNonneg(bs, col);
    }
    if col >= n {
      MulMonotone(bs, n, col);
      assert bs * n == bs * (n - 1) + bs;
    } else {
      MulMonotone(bs, col, n - 1);
    }
  }

  /** For a block-aligned head, the bounds test fails exactly on the
      gridBlocks by gridBlocks cells of the grid. */
  lemma OutOfBoundsIffOffGrid(s: Config, col: int, row: int)
    requires s.blockSize > 0
    ensures var g := GridRect(s);
            OutOfBounds(s, g, (g.x + s.blockSize * col, g.y + s.blockSize * row))
            <==> !(0 <= col < s.gridBlocks && 0 <= row < s.gridBlocks)
  {
    var g := GridRect(s);
    var bs := s.blockSize;
    assert g.width + (s.borderBlocks - 1) * bs == g.x + bs * (s.gridBlocks - 1);
    AxisInBounds(bs, g.x, s.gridBlocks, col);
    AxisInBounds(bs, g.y, s.gridBlocks, row);
  }

  /** The head is on one of the gridBlocks by gridBlocks cells of the grid,
      counting whole blocks from the grid's corner. */
  predicate OnGrid(s: Config, p: Cell)
    requires s.blockSize > 0
  {
    var g := GridRect(s);
    && 0 <= (p.0 - g.x) / s.blockSize < s.gridBlocks
    && 0 <= (p.1 - g.y) / s.blockSize < s.gridBlocks
  }

  /** For any Aligned head, in particular every block of a valid snake, the
      bounds test fails exactly off the grid's cells. */
  lemma AlignedOutOfBounds(s: Config, p: Cell)
    requires s.blockSize > 0 && Aligned(p, GridRect(s).x, s.blockSize)
    ensures OutOfBounds(s, GridRect(s), p) <==> !OnGrid(s, p)
  {
    var g := GridRect(s);
    var bs := s.blockSize;
    var col, row := (p.0 - g.x) / bs, (p.1 - g.y) / bs;
    assert p.0 - g.x == bs * col + (p.0 - g.x) % bs;
    assert p.1 - g.y == bs * row + (p.1 - g.y) % bs;
    assert p == (g.x + bs * col, g.y + bs * row);
    OutOfBoundsIffOffGrid(s, col, row);
  }

  /** The starting blocks are on the grid's cells: columns 3, 2 and 1 of
      row 1, and a Playable grid with a border that is not negative has more
      than three columns. */
  lemma StartBlocksOnGrid(s: Config)
    requires Playable(s) && s.borderBlocks >= 0
    ensures forall i :: 0 <= i < |StartBlocks(s, GridRect(s))| ==>
              OnGrid(s, StartBlocks(s, GridRect(s))[i])
  {
    var g := GridRect(s);
    var bs := s.blockSize;
    var b := StartBlocks(s, g);
    DivMultiple(bs, 1);
    DivMultiple(bs, 2);
    DivMultiple(bs, 3);
    assert b[0].0 - g.x == bs * 3 && b[1].0 - g.x == bs * 2 && b[2].0 - g.x == bs * 1;
    assert b[0].1 - g.y == bs * 1 && b[1].1 - g.y == bs * 1 && b[2].1 - g.y == bs * 1;
  }

  /** Wherever set_random_pos puts the fruit, the bounds test passes, as long
      as the border is not negative. */
  lemma FruitCellsInBounds(s: Config, p: Cell)
    requires s.blockSize > 0 && s.borderBlocks >= 0
    requires p in FruitCells(s, GridRect(s))
    ensures !OutOfBounds(s, GridRect(s), p)
  {
    MulNonneg(s.blockSize, s.borderBlocks);
  }

  /** The relocated fruit is not checked against the body: with the shipped
      settings the second starting block is a cell the fruit may be moved to. */
  lemma FruitMayLandOnSnake()
    ensures StartBlocks(Shipped, GridRect(Shipped))[1] in FruitCells(Shipped, GridRect(Shipped))
  {
    ShippedFruitCells();
  }

  class Game {
    const settings: Config
    const grid: Rect
    const fruit: Fruit
    const snake: Snake
    var score: int
    var gameActive: bool

    /** The parts fixed when the game is created. */
    ghost predicate Wired()
    {
      && Playable(settings)
      && grid == GridRect(settings)
      && snake.settings == settings && snake.grid == grid
      && fruit.settings == settings && fruit.grid == grid
    }

    /** The score is pointsPerFruit for every block the snake has grown by,
        counting a growth still pending in eatenFruit; a pending growth means
        the fruit has already moved off the head. */
    ghost predicate Valid()
      reads this, snake, fruit
    {
      && Wired()
      && snake.Valid()
      && score == settings.pointsPerFruit * (|snake.blocks| + (if snake.eatenFruit then 1 else 0) - 3)
      && (snake.eatenFruit ==> snake.blocks[0] != fruit.pos)
    }

    /** While a game is in progress every block is on the grid's cells, for
        a positive block size and a border that is not negative. Valid does
        not say this: it also holds between the update and the game-over
        check, when the head may just have left the grid. */
    ghost predicate OnBoard()
      reads this, snake
    {
      settings.blockSize > 0 && settings.borderBlocks >= 0 && gameActive ==>
        forall i :: 0 <= i < |snake.blocks| ==> OnGrid(settings, snake.blocks[i])
    }

    /** The state reset_game leaves. */
    ghost predicate AtStart()
      reads this, snake, fruit
    {
      && score == 0 && gameActive
      && snake.blocks == StartBlocks(settings, grid)
      && snake.direction == NONE && !snake.eatenFruit && !snake.changingDirection
      && fruit.pos == FruitStart(settings, grid)
    }

    /** Derives the grid from the settings, creates the fruit and the snake,
        and resets the game. */
    constructor (settings: Config)
      requires Playable(settings)
      ensures this.settings == settings
      ensures fresh(snake) && fresh(fruit)
      ensures Valid() && AtStart() && OnBoard()
    {
      this.settings := settings;
      var gridSize := settings.blockSize * settings.gridBlocks;
      var borderSize := settings.blockSize * settings.borderBlocks;
      var r := Rect(borderSize, borderSize, gridSize, gridSize);
      grid := r;
      fruit := new Fruit(settings, r);
      snake := new Snake(settings, r);
      score := 0;
      gameActive := true;
      new;
      ResetGame();
    }

    method ResetGame()
      requires Wired()
      modifies this, snake, fruit
      ensures Valid() && AtStart() && OnBoard()
    {
      if settings.borderBlocks >= 0 {
        StartBlocksOnGrid(settings);
      }
      score := 0;
      snake.Reset();
      fruit.Reset();
      gameActive := true;
    }

    /** A key press. Once the game is over any key starts a new one; during a
        game only Steer decides, and nothing but the direction and its lock
        can change. */
    method KeyDown(key: Key)
      requires Valid()
      modifies this, snake, fruit
      ensures Valid()
      ensures old(OnBoard()) ==> OnBoard()
      ensures !old(gameActive) ==> AtStart()
      ensures old(gameActive) ==>
                && Steering(snake.direction, snake.changingDirection)
                   == Steer(Steering(old(snake.direction), old(snake.changingDirection)), key)
                && score == old(score) && gameActive
                && snake.blocks == old(snake.blocks) && snake.eatenFruit == old(snake.eatenFruit)
                && fruit.pos == old(fruit.pos)
    {
      if !gameActive {
        ResetGame();
      } else {
        if !snake.changingDirection {
          if key == KUp && snake.direction != DOWN {
            snake.changingDirection := true;
            snake.direction := UP;
          }
          if key == KDown && snake.direction != UP {
            snake.changingDirection := true;
            snake.direction := DOWN;
          }
          if key == KLeft && snake.direction != RIGHT {
            snake.changingDirection := true;
            snake.direction := LEFT;
          }
          if key == KRight && snake.direction != LEFT {
            snake.changingDirection := true;
            snake.direction := RIGHT;
          }
        }
      }
    }

    /** The head on the fruit: the snake will grow on its next update, the
        score goes up by pointsPerFruit and the fruit moves to another cell,
        which may be on the snake's body. */
    method CheckCollisions()
      requires Valid()
      modifies this, snake, fruit
      ensures Valid()
      ensures var ate := old(snake.blocks[0]) == old(fruit.pos);
              && snake.eatenFruit == (ate || old(snake.eatenFruit))
              && score == old(score) + (if ate then settings.pointsPerFruit else 0)
              && (ate ==> fruit.pos in FruitCells(settings, grid) && fruit.pos != old(fruit.pos))
              && (!ate ==> fruit.pos == old(fruit.pos))
      ensures snake.blocks == old(snake.blocks) && snake.direction == old(snake.direction)
      ensures snake.changingDirection == old(snake.changingDirection)
      ensures gameActive == old(gameActive)
      ensures old(OnBoard()) ==> OnBoard()
    {
      if snake.blocks[0] == fruit.pos {
        MulSucc(settings.pointsPerFruit, |snake.blocks| - 3);
        snake.eatenFruit := true;
        score := score + settings.pointsPerFruit;
        var oldPos := fruit.pos;
        PlayableHasTwoFruitCells(settings);
        fruit.SetRandomPos();
        if fruit.pos == oldPos {
          fruit.RedrawUntilMoved(oldPos);
        }
      }
    }

    /** The game ends when the head fails a bounds test or lies on the body;
        this never restarts a game. As the head is Aligned, the bounds tests
        fail exactly when it has left the grid. */
    method CheckGameOver()
      requires Valid()
      modifies this
      ensures Valid()
      ensures gameActive == (old(gameActive) && !OutOfBounds(settings, grid, snake.blocks[0])
                                             && !SelfCollision(snake.blocks))
      ensures gameActive == (old(gameActive) && OnGrid(settings, snake.blocks[0])
                                             && !SelfCollision(snake.blocks))
      ensures score == old(score)
    {
      assert Aligned(snake.blocks[0], grid.x, settings.blockSize);
      AlignedOutOfBounds(settings, snake.blocks[0]);
      var outX := grid.width + (settings.borderBlocks - 1) * settings.blockSize;
      var outY := grid.height + (settings.borderBlocks - 1) * settings.blockSize;
      var head := snake.blocks[0];
      if head.0 < grid.x {
        gameActive := false;
      } else if head.0 > outX {
        gameActive := false;
      } else if head.1 < grid.y {
        gameActive := false;
      } else if head.1 > outY {
        gameActive := false;
      }
      if head in snake.blocks[1..] {
        gameActive := false;
      }
    }

    /** One frame: while a game is in progress, update the snake, then check
        the fruit against the moved head, then check for game over. Once the
        game is over a frame changes nothing. */
    method Tick()
      requires Valid()
      modifies this, snake, fruit
      ensures Valid()
      ensures old(OnBoard()) ==> OnBoard()
      ensures !old(gameActive) ==>
                && score == old(score) && !gameActive
                && snake.blocks == old(snake.blocks) && snake.direction == old(snake.direction)
                && snake.eatenFruit == old(snake.eatenFruit)
                && snake.changingDirection == old(snake.changingDirection)
                && fruit.pos == old(fruit.pos)
      ensures old(gameActive) ==>
                var d := old(snake.direction);
                var moved := Moved(old(snake.blocks), d, old(snake.eatenFruit), settings.blockSize);
                var ate := moved[0] == old(fruit.pos);
                && snake.blocks == moved
                && snake.direction == d
                && snake.eatenFruit == (ate || (d == NONE && old(snake.eatenFruit)))
                && snake.changingDirection == (d == NONE && old(snake.changingDirection))
                && score == old(score) + (if ate then settings.pointsPerFruit else 0)
                && (ate ==> fruit.pos in FruitCells(settings, grid) && fruit.pos != old(fruit.pos))
                && (!ate ==> fruit.pos == old(fruit.pos))
                && gameActive == !(OutOfBounds(settings, grid, moved[0]) || SelfCollision(moved))
    {
      if gameActive {
        ghost var before := snake.blocks;
        ghost var wasOnBoard := OnBoard();
        snake.Update();
        CheckCollisions();
        CheckGameOver();
        if wasOnBoard && settings.blockSize > 0 && settings.borderBlocks >= 0 && gameActive {
          forall i | 0 <= i < |snake.blocks|
            ensures OnGrid(settings, snake.blocks[i])
          {
            if i > 0 && snake.direction != NONE {
              assert snake.blocks[i] == before[i - 1];
            }
          }
        }
      }
    }
  }

  /** No reversal check guards the first key: from NONE, LEFT is taken, and
      the first frame moves the head onto the block behind it. */
  lemma LeftFirstRunsIntoBody()
    ensures Steer(Steering(NONE, false), KLeft) == Steering(LEFT, true)
    ensures var start := StartBlocks(Shipped, GridRect(Shipped));
            var next := Moved(start, LEFT, false, Shipped.blockSize);
            next == [(160, 128), (192, 128), (160, 128)] && SelfCollision(next)
  {
    var start := StartBlocks(Shipped, GridRect(Shipped));
    var next := Moved(start, LEFT, false, Shipped.blockSize);
    assert next[2] == next[0];
  }

  /** With an odd number of grid blocks the start cell of the fruit is half a
      block off the lattice the snake moves on, so the head can never reach
      it and the first fruit cannot be eaten. */
  lemma OddGridStartFruitUnreachable(p: Cell)
    requires Aligned(p, GridRect(Config(8, 32, 13, 3, 10)).x, 32)
    ensures Playable(Config(8, 32, 13, 3, 10))
    ensures FruitStart(Config(8, 32, 13, 3, 10), GridRect(Config(8, 32, 13, 3, 10))) == (304, 304)
    ensures p != FruitStart(Config(8, 32, 13, 3, 10), GridRect(Config(8, 32, 13, 3, 10)))
  {
  }

  /** A new game with the shipped settings: RIGHT, a second key in the same
      frame that the lock ignores, one frame, and a reversal that is refused. */
  method Scenario() {
    var g := new Game(Shipped);
    ShippedGeometry();
    g.KeyDown(KRight);
    g.KeyDown(KUp);
    assert g.snake.direction == RIGHT;
    g.Tick();
    assert g.snake.blocks == [(224, 128), (192, 128), (160, 128)];
    assert g.score == 0 && g.gameActive;
    g.KeyDown(KLeft);
    assert g.snake.direction == RIGHT;
  }
}
