# Simple Snake: a verified model of the game state

This project models the game-state core of Simple Snake, a Pygame snake
game, in Dafny and proves properties of it. The core has three parts.

- **The snake** (`SnakeModel.Snake`) holds its blocks, head first, and the
  direction it moves in. It also holds two per-frame flags: `eatenFruit`
  (grow on the next update) and `changingDirection` (the direction is locked
  until the next update).
- **The fruit** (`FruitModel.Fruit`) holds one position.
- **The game** (`SimpleSnake.Game`) holds the score and whether a game is in
  progress. It owns one snake and one fruit.

The numeric settings form one immutable record, `Settings.Config`. The
shipped values are block size 32, 12 grid blocks, a border of 3 blocks,
10 points per fruit and a speed of 8 frames a second. The grid is derived
from these settings (`Grid.GridRect`): a square of 384 pixels placed 96
pixels in from the top-left corner of a 576-pixel window.

Classes model what the source updates in place. Each mutating method states
the complete new state in terms of the old one. Pure functions give those
states: `Moved` for one snake update, `Steer` for one key press, `FruitCells`
for where the fruit can go, and `OutOfBounds` and `SelfCollision` for game
over. Lemmas prove properties of these functions.

- `Snake.Valid` is kept by every method. It says the snake has at least three
  blocks, each block is one block size from the next along exactly one
  axis, and every block is a whole number of blocks from `grid.x` on both
  axes. The last part lets `CheckGameOver` state its bounds tests as "the
  head has left the grid's cells".
- `Game.Valid` is kept by every method of the game. It says the score is
  `pointsPerFruit` times the number of blocks the snake has grown by,
  counting a growth still pending in `eatenFruit`. It also says a pending
  growth means the fruit has already moved off the head.
- `Game.OnBoard` says every block is on the grid's cells while a game is in
  progress, for a positive block size and a border that is not negative. The
  constructor and `ResetGame` establish it, and `KeyDown`, `CheckCollisions`
  and `Tick` keep it. It is not part of `Game.Valid`, because between the
  update and the game-over check the head may just have left the grid.
- A frame (`Game.Tick`) runs update, then the fruit check, then the game-over
  check, and only while a game is in progress. The fruit check looks at the
  head the update has just moved. The growth it causes shows up only in the
  next update.
- Randomness is a nondeterministic choice (`:|`) from the set that Python's
  `random.randrange` draws from. `FruitModel.RandRange` defines that set the
  way CPython computes it: `start + step * k` for `k` below
  `ceil((stop - start) / step)`. Its contract says which integers it holds.
  Nothing is claimed about the distribution.

Quirks of the code that the model keeps on purpose:

- The snake starts at x = `grid.x` + 3, 2 and 1 block sizes. Its y coordinate
  is computed from `grid.x`; this is only right because the border is the same
  on both axes, so `grid.x == grid.y` (`GridRect`).
- The fruit's range stops at `grid.width - blockSize`. That bound is not
  offset by `grid.x`. With the shipped settings each coordinate is one of the
  seven values 128 to 320, so the fruit never appears in the four right-hand
  columns or the four bottom rows of the grid, 352 to 448. That is three more
  than the one-block margin the code's comment describes (`ShippedFruitCells`).
- The new fruit position is never checked against the snake's body
  (`FruitMayLandOnSnake`).
- The tail is popped before the self-collision test. Moving onto the cell the
  tail is leaving is therefore not a collision on a step where the snake does
  not grow (`IntoVacatedTail`).
- No reversal check guards the first key of a game: from NONE any arrow is
  taken. LEFT as the first key turns the snake back into its own body, and the
  first frame ends the game with the head on the tail's cell
  (`LeftFirstRunsIntoBody`).
- The fruit starts at (blockSize · gridBlocks) // 2 past `grid.x`. When that is
  not a whole number of blocks, as with 13 grid blocks, the start cell lies off
  the lattice the snake moves on, and the first fruit can never be eaten
  (`OddGridStartFruitUnreachable`).

## Model

| member | source | states |
|---|---|---|
| `Settings.ShippedIsPlayable` | settings.py:10-41 | The shipped settings (speed 8, block size 32, 12 grid blocks, a border of 3 blocks, 10 points per fruit) meet `Playable`: a positive block size and more than borderBlocks + 3 grid blocks. |
| `Grid.GridRect` | simple_snake.py:23-33 | The grid is square, `gridBlocks` blocks wide, and sits centred in the window with a border of equal width on both sides: x + width + x is `ScreenSize`, the window side of line 28 (grid size plus twice the border size). |
| `Grid.ShippedGeometry` | simple_snake.py:23-33 | With the shipped settings the grid is (96, 96, 384, 384) and the window is 576 pixels. |
| `SnakeModel.StartBlocks` | snake.py:20-24 | The three starting blocks, head first: (gx+3·bs, gx+bs), (gx+2·bs, gx+bs), (gx+bs, gx+bs). They are connected. |
| `SnakeModel.NextHead` | snake.py:42-52 | A real direction moves the head exactly one block size along one axis, keeping the other coordinate. NONE leaves it in place. |
| `SnakeModel.NextHeadOpposite` | snake.py:45-52 | Moving in a direction and then in its opposite gives back the starting cell. |
| `SnakeModel.Advance` | snake.py:54-58 | Inserting the head and popping the tail when not growing: the new head comes first and then the old blocks in order. The length grows by 1 when growing and is unchanged otherwise. |
| `SnakeModel.Moved` | snake.py:40-58 | One update: without a direction the blocks are unchanged. Otherwise the moved head comes first, followed by the old blocks, and the snake is one longer exactly when growing. |
| `SnakeModel.MovedKeepsConnected` | snake.py:54-58 | An update keeps every block one block size from the next and never shortens the snake. |
| `SnakeModel.MovedKeepsAligned` | snake.py:42-58 | An update keeps every block a whole number of blocks from the origin on both axes. |
| `SnakeModel.StartBlocksAligned` | snake.py:20-24 | The starting blocks are a whole number of blocks from grid.x on both axes. |
| `SnakeModel.IntoVacatedTail` | snake.py:57-58 | A head that moves onto the tail's cell meets the body, when not growing, only if that cell also appears further up the body. When growing it always meets the body. |
| `SnakeModel.Snake.constructor` | snake.py:7-12 | The snake stores the settings and the grid and starts in its reset state. |
| `SnakeModel.Snake.Reset` | snake.py:14-33 | The blocks are the starting blocks, the direction is NONE and both flags are false. |
| `SnakeModel.Snake.Update` | snake.py:35-62 | The blocks become `Moved` of the old ones and the direction is unchanged. A direction of NONE changes nothing at all. A move clears both flags. The length never drops and `Valid` (connected and aligned) is kept. |
| `FruitModel.RandRange` | fruit.py:25-30 | The set randrange draws from holds exactly the values in [start, stop) that are a whole number of steps above start. It is empty exactly when start >= stop, which is when Python raises ValueError. |
| `FruitModel.FruitCells` | fruit.py:22-31 | A cell can be chosen exactly when x lies in [gx+bs, width−bs) and is a whole number of blocks above gx+bs, and y satisfies the same with gy and height. |
| `FruitModel.FruitStart` | fruit.py:18-20 | The start cell lies on the diagonal, (bs·gridBlocks)//2 past grid.x on both axes, using floor division. |
| `FruitModel.ShippedFruitCells` | fruit.py:25-30 | With the shipped settings each coordinate is one of 128, 160, …, 320, and the start cell (288, 288) is one of the cells. |
| `FruitModel.PlayableHasTwoFruitCells` | simple_snake.py:127-132 | A Playable configuration offers at least two fruit cells, so a redraw that must differ from the old cell can succeed. |
| `FruitModel.Fruit.constructor` | fruit.py:7-13 | The fruit stores the settings and the grid and starts at its start cell. |
| `FruitModel.Fruit.Reset` | fruit.py:15-20 | The position becomes the start cell. Position is the fruit's only mutable field. |
| `FruitModel.Fruit.SetRandomPos` | fruit.py:22-31 | The new position is one of `FruitCells`. It requires the two ranges to be non-empty, as randrange does. |
| `FruitModel.Fruit.RedrawUntilMoved` | simple_snake.py:131-132 | The redraw loop ends at a cell of `FruitCells` that differs from the old position. |
| `SimpleSnake.Steer` | simple_snake.py:100-112 | When locked, or for a non-arrow key, nothing changes. Otherwise the arrow's direction is taken and the lock set, unless it is the exact opposite of the current direction; so a repeated direction, or any arrow from NONE, is taken. One press never reverses a real direction. |
| `SimpleSnake.SteerAll` | simple_snake.py:72-77 | Once locked, further key presses in the same frame change nothing. |
| `SimpleSnake.SteerAllHeldOrTurned` | simple_snake.py:100-112 | Through any key sequence, either the lock is off and the direction is the one held at the last update, or the lock is on and the direction is not its opposite. |
| `SimpleSnake.NoReversalBetweenUpdates` | simple_snake.py:90-112 | However many keys are pressed after a moving update, the direction cannot become the opposite of the one held then. |
| `SimpleSnake.UpThenDownKeepsUp` | simple_snake.py:100-112 | Moving right, UP followed by DOWN in one frame leaves the direction UP and locked. |
| `SimpleSnake.OutOfBounds` | simple_snake.py:136-150 | The head is left of grid.x, right of grid.width + (borderBlocks − 1) · blockSize, or the same on y. On the game's grid this holds exactly when a block placed at the head does not lie wholly inside the grid. |
| `SimpleSnake.MovedSelfCollision` | simple_snake.py:153 | `SelfCollision` is the test of line 153, the head among the other blocks. After any move it holds exactly when the new head is one of the old blocks, leaving out the old tail unless the snake grows, because pop() runs before the test (snake.py:57-58). |
| `SimpleSnake.OutOfBoundsIffOffGrid` | simple_snake.py:138-150 | For a block-aligned head, the four bounds tests fail exactly when the head is outside the gridBlocks × gridBlocks cells of the grid. |
| `SimpleSnake.AlignedOutOfBounds` | simple_snake.py:138-150 | For any aligned head, every block of a valid snake included, the four bounds tests fail exactly when the head is off the grid's gridBlocks × gridBlocks cells. |
| `SimpleSnake.FruitCellsInBounds` | fruit.py:25-31 | Every cell set_random_pos can choose passes the game's bounds test when the border is not negative. |
| `SimpleSnake.FruitMayLandOnSnake` | simple_snake.py:127-132 | With the shipped settings a starting block of the snake is a cell the fruit may be moved to. |
| `SimpleSnake.LeftFirstRunsIntoBody` | simple_snake.py:100-112 | From NONE the key LEFT is taken. With the shipped settings the first frame then gives blocks (160, 128), (192, 128), (160, 128), a self-collision. |
| `SimpleSnake.OddGridStartFruitUnreachable` | fruit.py:18-20 | With 13 grid blocks the settings are Playable, the fruit starts at (304, 304), and no block-aligned cell is that cell. |
| `SimpleSnake.StartBlocksOnGrid` | snake.py:20-24 | For a Playable configuration with a border that is not negative, every starting block is on the grid's cells. |
| `SimpleSnake.Game.constructor` | simple_snake.py:23-48 | The grid is derived from the settings. Then a new fruit and a new snake are created, which the game alone owns, and the game is reset. `Valid` and `OnBoard` hold. |
| `SimpleSnake.Game.ResetGame` | simple_snake.py:53-66 | Score 0, a game in progress, and the snake and fruit in their reset states. `Valid` and `OnBoard` hold afterwards. |
| `SimpleSnake.Game.KeyDown` | simple_snake.py:90-112 | With no game in progress, any key resets the game and does nothing else. During a game the direction and lock become `Steer` of the old ones, and nothing else changes. `Valid` is kept, and so is `OnBoard`. |
| `SimpleSnake.Game.CheckCollisions` | simple_snake.py:114-132 | When the head is on the fruit: `eatenFruit` is set, the score rises by exactly `pointsPerFruit`, and the fruit moves to a different cell of `FruitCells`. Otherwise score, fruit and the flag are untouched. The snake's blocks, direction and lock never change. `Valid` and `OnBoard` are kept. |
| `SimpleSnake.Game.CheckGameOver` | simple_snake.py:134-162 | The game stops exactly when the head fails a bounds test or occurs among the other blocks; equivalently, when the head has left the grid's cells or is on the body. It never restarts a game. |
| `SimpleSnake.Game.Tick` | simple_snake.py:79-83 | With no game in progress, nothing changes. During a game the state after the frame is update, then the fruit check on the moved head, then the game-over check. `Valid` (the score accounting) is kept, and so is `OnBoard`: after a frame that leaves the game in progress, every block is on the grid's cells. |

## Left out

- Drawing and the display: `pygame.init`, `set_mode`, the caption and `_update_screen`. `draw_snake` and `draw_fruit` are left out too. `Grid.ScreenSize` is only computed.
- game_text.py in full, and the score and guide text updates in simple_snake.py. They only render text.
- Sounds: loading at simple_snake.py:44-45 and playback at lines 121 and 159. They are audio output.
- Event polling and clock pacing. One key press is one `KeyDown` call and one frame is one `Tick` call. `Config.speed` is kept but has no effect.
- The QUIT event, the `running` flag and `pygame.quit`. They only shut the driver down.
- Pygame key codes. They are abstracted into `Key`: the four arrows and any other key.
- The distribution of Python's `random` module. Only membership in the randrange set is modelled; nothing is claimed about uniformity.
- Fonts, colours and the title in settings.py. They are presentation only.
- FruitModel.Fruit.RedrawUntilMoved: models the redraw `while` loop at simple_snake.py:131-132 by where it ends, a cell other than the old one. How many draws it takes is not modelled, because an unbounded random retry has no termination measure.
- FruitModel.Fruit.SetRandomPos: the ValueError raised by randrange on an empty range is a precondition, not an error value. No caller handles it.
- Settings.Playable: requires `blockSize > 0` and `gridBlocks > borderBlocks + 3` of the game's settings. Only a positive step of randrange is modelled; randrange raises ValueError on a zero step. The second half excludes two failures of the code. `randrange` raises ValueError when the fruit's range is empty. When the range holds a single cell, the redraw loop hangs the first time the fruit is eaten on that cell; a first draw away from the start cell still ends, since the start cell is normally not that cell.
- The Python constructors of Snake and Fruit leave the blocks and the position unset until `reset` is called. The Dafny constructors call `Reset`, as the game's constructor does right away in any case.
