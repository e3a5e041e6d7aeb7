# Snake game: a verified model of the simulation

This project models the game logic of a browser snake game (`script.js`):
a snake moves on a fixed 30 × 30 board with 1-based coordinates, eats food,
grows, scores, and loses when its head leaves the board or lands on its own
body. Two modules:

- `SnakeRules` (`snake_rules.dfy`) holds the values and pure rules: board
  bounds, positions and velocities, the optional lookup into the body
  (`body[i]?.[0]`), the two direction gates, the key → velocity rule `Turn`,
  `TurnAll` for a run of key presses between two ticks, and the lemmas about
  them.
- `SnakeGame` (`snake_game.dfy`) holds the class `Game`. Its fields are the
  script's module-level variables: `body`, `headX/Y`, `velocityX/Y`,
  `foodX/Y`, `score`, `gameOver`, and `highScore` for the stored high score.
  Its methods are the tick (`Step`, built from `EatFood`,
  `ChangeFoodPosition`, `UpdateScores`, `ShiftBody`, `MoveHead` and
  `CheckSelfCollision`), the key handler `ChangeSnakeHeadDirection` and
  `ResetGame`. `Valid()` is the invariant of every reachable state. While the
  game runs, the head and all segments are on the board. With two or more
  segments, head and neck are one unit step apart and `head + velocity` is
  never the neck. `Step` also keeps the tracked head equal to `body[0]`.

Behaviour of `script.js` worth noting, which the model keeps:

- The tick has no guard on `gameOver`. The script stops the timer instead,
  so a call after the end still moves the snake. `Step` never clears
  `gameOver`.
- An empty body refuses every key, because `undefined !== undefined` is
  false. Only a body of exactly one segment accepts every key.
- The food test compares the head before it moves. A head one cell from the
  food therefore eats on the following tick, not on the tick that reaches
  the food.
- With an empty body the first tick yields a one-segment body whether or not
  food was eaten. The cell pushed by `eatFood` never survives the shift, so
  eating yields `[newHead] + oldBody`.

Two client methods in `snake_game.dfy` follow short games using only the
contracts. `OpeningMoves` shows a key refused before the first tick, food
eaten on the tick after the head reaches it, a reversal into the neck
refused and a turn accepted. `LeavingTheBoard` shows a loss at the left
edge, followed by a reset that keeps the high score.

Random draws (`Math.floor(Math.random() * 30) + 1`) are parameters of the
operation that draws them, each required to lie in 1..30. The stored high
score is the `highScore` field; the constructor takes the stored value, with
0 standing for an absent entry.

## Model

| member | source | states |
|---|---|---|
| SnakeRules.MovedOutOfBoardBoundaries | script.js:31-33 | true exactly when the head is outside columns 1..30 or rows 1..30 |
| SnakeRules.CanChangeVerticalDirection | script.js:185-187 | empty body: refused; one segment: allowed; otherwise allowed iff head and neck X differ |
| SnakeRules.CanChangeHorizontalDirection | script.js:211-213 | empty body: refused; one segment: allowed; otherwise allowed iff head and neck Y differ |
| SnakeRules.KeyDirection | script.js:142-160 | each of the four arrow keys names a unit velocity along one axis; any other key names none |
| SnakeRules.Turn | script.js:141-161 | an accepted key sets the velocity to that key's unit vector; a refused or unknown key, or an empty body, leaves it unchanged; one segment accepts every arrow key |
| SnakeRules.TurnAllIsUnitOrUnchanged | script.js:141-161 | after any run of key presses the velocity is the old one or a unit vector along one axis |
| SnakeRules.EmptyBodyRejectsEveryKey | script.js:185-213 | before the first tick no run of key presses changes the velocity |
| SnakeRules.OtherKeysKeepVelocity | script.js:141-161 | a run of keys none of which is an arrow key leaves the velocity unchanged, whatever the body |
| SnakeRules.SingleSegmentAcceptsEveryKey | script.js:185-213 | with one segment the last arrow key of a run decides the velocity, whatever keys follow it |
| SnakeRules.TurnKeepsOffNeck | script.js:130-140 | if head + velocity is off the neck, it stays off the neck after any key press |
| SnakeRules.TurnAllKeepsOffNeck | script.js:130-161 | the same for any run of key presses |
| SnakeRules.NoReversalIntoNeck | script.js:130-140 | if head = neck + v for a unit v, no run of key presses makes head + velocity equal to the neck |
| SnakeGame.Game.constructor | script.js:12-27 | load state: food and head on the board, empty body, zero velocity, score 0, not over |
| SnakeGame.Game.ChangeFoodPosition | script.js:52-55 | the food moves to the drawn cell |
| SnakeGame.Game.ChangeSnakesHeadPosition | script.js:57-60 | the head moves to the drawn cell |
| SnakeGame.Game.EatFood | script.js:62-64 | the food's cell is appended to the body |
| SnakeGame.Game.UpdateScores | script.js:76-82 | the score rises by 1; the high score becomes max(old high score, score) and changes only when the score exceeds it |
| SnakeGame.Game.ShiftBody | script.js:98-100 | each segment from index 1 on takes the old value of the one ahead; the length and index 0 are unchanged |
| SnakeGame.Game.MoveHead | script.js:104-106 | the head moves by the velocity and replaces index 0, creating it on an empty body |
| SnakeGame.Game.CheckSelfCollision | script.js:114-121 | gameOver becomes old gameOver or some segment at index 1 or later equals the head |
| SnakeGame.Game.Step | script.js:87-128 | keeps Valid(); empty body becomes [h+v]; when fed, [h+v] + B with the food redrawn, score +1 and high score max(old, score); otherwise [h+v] + B without its last segment and nothing else changes; head = body[0]; gameOver = old, or off the board, or biting itself |
| SnakeGame.Game.ChangeSnakeHeadDirection | script.js:141-161 | keeps Valid(), including head + velocity never equal to the neck; the velocity becomes Turn of the body, the old velocity and the key |
| SnakeGame.Game.ResetGame | script.js:215-230 | keeps Valid(); score 0, empty body, not over, zero velocity, head and food at the drawn cells, high score kept |

`SnakeGame.Game.IsSnakeReachingFood` (script.js:48-50) is the predicate that `Step`'s
contract uses to decide whether the snake eats.

## Left out

- Rendering: the markup strings, `board.innerHTML`, `initializeScores` and the score labels are presentation only.
- The game-over dialog, the restart and close listeners, and the keydown and on-screen button wiring are UI callbacks. Only the key name → velocity mapping is modelled, with keys as strings.
- The 100 ms timer (`setInterval`/`clearInterval`) is host scheduling. It is represented by repeated calls to `Step`, which the host stops once `gameOver` holds.
- `localStorage` and `JSON.parse` in `getHighScore` are foreign storage. The stored value is the `highScore` field, taken as a non-negative integer.
- `Math.random` and its floating-point arithmetic are replaced by caller-supplied integers in 1..30.
- JavaScript numbers are doubles. Coordinates and scores are modelled as unbounded integers, since they stay far below 2^53.
