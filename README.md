# Snake and Ladders — Dafny model

A model of the one-file Snake and Ladders simulation (`SnakeAndLadderGame.java`):

- the **board**, a fixed size plus a snake table and a ladder table, filled by guarded inserts that silently drop definitions breaking their bounds; a lookup resolves the square a player lands on, with snakes checked before ladders;
- the **players**, each a name and a square (0 before the first move);
- the **game**, a turn state machine: the player to move adds the die roll to their square; a roll that would pass the last square is forfeited; otherwise the board resolves the square reached. Landing exactly on the last square makes that player the winner. Any other outcome passes the turn round-robin to the next player.

Module `Boards` (board.dfy) holds the board as a value (`Layout`) with the pure operations and their lemmas, and the `Board` class whose map fields the inserts update in place. Module `Games` (game.dfy) holds the game as a value (`Turn`): one turn (`Step`), the game loop over a finite supply of rolls (`Run`) and the invariant every game keeps. It also holds the `Player` and `Game` classes, whose methods are proved against those functions. Module `Overflow` (overflow.dfy) models the turn with Java's 32-bit addition, for the finding below. Module `Scenarios` (scenarios.dfy) checks concrete games.

The die is not rolled in the model. Each turn is given its roll as a parameter in [1, 6], matching `random.nextInt(6) + 1`. `startGame` is modelled over a finite sequence of rolls: it stops when a player wins or the rolls run out. Integers are unbounded, which is the corrected behaviour of the finding below.

## Model

| member | source | states |
|---|---|---|
| `Boards.WithSnake` | SnakeAndLadderGame.java:14-18 | records start -> end exactly when start > end, start <= size and end > 0 (overwriting an earlier end for that start); otherwise the board is unchanged; the ladder table and size are never changed; a well-formed board stays well formed |
| `Boards.WithLadder` | SnakeAndLadderGame.java:20-24 | records start -> end exactly when start < end, start > 0 and end <= size; otherwise unchanged; the snake table and size are never changed; well-formedness is preserved |
| `Boards.Next` | SnakeAndLadderGame.java:26-31 | snake end if the square starts a snake, else ladder end if it starts a ladder, else the square itself; on a well-formed board a square in [1, size] resolves into [1, size], the result is below the square exactly at a snake start and above it exactly at a ladder start that is not a snake start |
| `Boards.SnakeLastWriteWins` | SnakeAndLadderGame.java:16 | a second accepted snake on the same start square leaves the board as if only the second had been added, and the lookup there gives the second end |
| `Boards.LadderLastWriteWins` | SnakeAndLadderGame.java:22 | the same for ladders; the lookup gives the second end unless a snake starts on that square, in which case the snake wins |
| `Boards.SetupWellFormed` | SnakeAndLadderGame.java:8-24 | any sequence of guarded inserts, starting from a well-formed (e.g. empty) board, keeps the size, gives snakes 1 <= end < start <= size and ladders 1 <= start < end <= size, so every lookup from [1, size] lands in [1, size] |
| `Boards.Board.constructor` | SnakeAndLadderGame.java:8-12 | a new board has the given size, both tables empty, and is well formed |
| `Boards.Board.AddSnake` | SnakeAndLadderGame.java:14-18 | the board's new value is `WithSnake` of its old value; it stays well formed |
| `Boards.Board.AddLadder` | SnakeAndLadderGame.java:20-24 | the board's new value is `WithLadder` of its old value; it stays well formed |
| `Boards.Board.GetNextPosition` | SnakeAndLadderGame.java:26-31 | returns `Next` of the board's value at the given square |
| `Games.Step` | SnakeAndLadderGame.java:87-102 | one turn: no other player moves; past the last square the mover stays put, otherwise the mover goes to the resolved square; landing on the last square sets the winner to the mover and keeps the turn index, any other outcome keeps the winner and advances the index by one modulo the number of players; the index stays in range |
| `Games.StepKeepsInvariant` | SnakeAndLadderGame.java:87-102 | on a well-formed board of positive size a turn keeps every square in [0, size], keeps the index in range, and keeps "a player is on the last square exactly when that player is the winner, and it is the winner's turn" |
| `Games.WinIsFinal` | SnakeAndLadderGame.java:97-99 | once there is a winner, a further turn with any roll changes nothing |
| `Games.Run` | SnakeAndLadderGame.java:112-118 | plays `Step` with each roll in order, stopping at the first win or when the rolls run out; keeps the number of players and the index in range, and does nothing to a game that already has a winner |
| `Games.RunKeepsInvariant` | SnakeAndLadderGame.java:112-118 | the game loop over any valid rolls keeps the invariant, so a game it ends has exactly one player on the last square, the winner |
| `Games.RunIsStepAll` | SnakeAndLadderGame.java:114-116 | on a consistent game, leaving the loop at the first win gives the same game as playing every roll, so the exit loses nothing |
| `Games.Player.constructor` | SnakeAndLadderGame.java:42-45 | a new player has the given name and square 0 |
| `Games.Player.SetPosition` | SnakeAndLadderGame.java:55-57 | the player's square becomes the given one, unchecked |
| `Games.Game.constructor` | SnakeAndLadderGame.java:67-73 | a fresh empty board of the given size, no players, index 0, no winner; consistent when the size is positive |
| `Games.Game.AddPlayer` | SnakeAndLadderGame.java:75-77 | appends one fresh player with the given name at square 0; earlier players, their order and squares, the index and the winner are unchanged; consistency is kept |
| `Games.Game.AddSnake` | SnakeAndLadderGame.java:79-81 | delegates to the board (new value `WithSnake` of the old); the players, index and winner are unchanged |
| `Games.Game.AddLadder` | SnakeAndLadderGame.java:83-85 | delegates to the board (new value `WithLadder` of the old); the players, index and winner are unchanged |
| `Games.Game.PlayTurn` | SnakeAndLadderGame.java:87-102 | the game's new value is `Step` of its old value with the roll; the winner object is the mover exactly when the mover is now on the last square; consistency is kept |
| `Games.Game.IsGameOver` | SnakeAndLadderGame.java:108-110 | holds exactly when a winner is set; in a consistent game, exactly when some player stands on the last square |
| `Games.Game.StartGame` | SnakeAndLadderGame.java:112-118 | plays turns until a player wins or the rolls run out; the game's new value is `Run` of its old value over the rolls; consistency is kept |
| `Overflow.StepAsWritten` | SnakeAndLadderGame.java:90-101 | the turn with the square-plus-roll sum wrapped to 32 bits, as Java computes it; keeps the number of players |
| `Overflow.AsWrittenAgreesBelowLimit` | SnakeAndLadderGame.java:90-91 | for board sizes up to 2^31 - 7, the 32-bit turn equals the modelled turn on every consistent game |
| `Overflow.OverflowLeavesBoard` | SnakeAndLadderGame.java:90-93 | on a board of size 2^31 - 1 with a ladder 1 -> 2^31 - 3, a player starting at 0 who rolls 1 climbs to 2^31 - 3; rolling 6 from there, the player stays put in the model; in the 32-bit turn the player moves to -2^31 + 3, breaking the invariant |
| `Scenarios.MainLayout` | SnakeAndLadderGame.java:127-148 | every snake and ladder the program places on its board of 100 passes its guard |
| `Scenarios.TenSquareGame` | SnakeAndLadderGame.java:87-102 | size 10, snake 9 -> 3, ladder 2 -> 8, rolls 2, 5, 1: squares 8, 8 (overshoot), 3 |
| `Scenarios.SixesStall` | SnakeAndLadderGame.java:90-101 | two players on 96 of an empty board of 100, followed by any number n of sixes: nobody moves or wins, and the turn index advances by n modulo 2 |
| `Scenarios.ExactLandingWins` | SnakeAndLadderGame.java:97-99 | landing exactly on 100 sets the winner and keeps the turn index |
| `Scenarios.DuplicateSnake` | SnakeAndLadderGame.java:14-18 | two snakes from 9 (to 3, then to 5): the snake table is exactly 9 -> 5 |
| `Scenarios.RejectedPlacements` | SnakeAndLadderGame.java:14-24 | a snake going up, a snake off the board, a ladder going down and a ladder from 0 leave the empty board empty |

## Left out

- `rollDice` and `java.util.Random`: randomness is replaced by a roll parameter constrained to [1, 6].
- All console output (the per-turn line, the start and winner messages): I/O with no logic in its text.
- `main`: only its snake and ladder layout is reused (`Scenarios.MainLayout`); the driver itself is literal setup.
- `Games.Game.StartGame`: the source loops until a winner with no bound and may not terminate; the model plays at most the supplied finite sequence of rolls and stops early only on a win.
- `getName`, `getPosition` and `Board.getSize` are plain field reads: the model reads the `name`, `position` and `size` fields directly.
- `Games.Step`, `Games.Game.PlayTurn`, `Games.Game.StartGame`: with no players the source throws `IndexOutOfBoundsException` at `players.get(currentPlayerIndex)`; the model does not model that exception and requires at least one player instead.
- Player names are carried as opaque strings; nothing checks them.
- `Games.Invariant` and `Games.Game.Consistent` assume a board size of at least 1. On a board of size 0 the source makes the first player to roll the winner at square 0; that case is modelled by `Step` but not covered by the invariant.
- `Games.Step` and the classes use unbounded integers rather than Java's 32-bit `int`; the difference is exactly the finding below.

## Findings

| source | as written | input that shows it | evidently intended | confidence | as-written member | corrected member |
|---|---|---|---|---|---|---|
| SnakeAndLadderGame.java:90-91 | `position + diceRoll` is 32-bit `int` addition, so near `Integer.MAX_VALUE` it wraps to a negative number that passes the `newPosition <= board.getSize()` test | `new Game(Integer.MAX_VALUE)`, `addLadder(1, Integer.MAX_VALUE - 2)`, a player on `Integer.MAX_VALUE - 2` rolls 6 and moves to `-2147483645` | the roll overshoots the last square, so the player stays put and every square stays in [0, size] | not executed | `Overflow.OverflowLeavesBoard` | `Games.StepKeepsInvariant` |
