/**
 * The game state of the snake game and the operations that change it:
 * the tick that moves, feeds and checks the snake, the key handler that
 * changes the velocity, and the reset that starts a new game.
 *
 * Positions that the game draws at random are parameters of the operation
 * that draws them, each required to be a board coordinate.
 */
module SnakeGame {
  import opened SnakeRules

  function Max(a: int, b: int): (r: int) {
    if a >= b then a else b
  }

  class Game {
    /** The snake, head first; empty from a reset until the first tick. */
    var body: seq<Pos>
    /** The tracked head; the tick adds the velocity to it and writes it to body[0]. */
    var headX: int
    var headY: int
    var velocityX: int
    var velocityY: int
    var foodX: int
    var foodY: int
    var score: int
    /** The stored high score (absent from storage reads as 0). */
    var highScore: int
    var gameOver: bool

    /**
     * The invariant of every state a game reaches. While the game runs,
     * the head and every segment lie on the board, and the head is one unit
     * step away from the neck and does not point back into it.
     */
    ghost predicate Valid()
      reads this
    {
      InBoard(Pos(foodX, foodY)) &&
      0 <= score <= highScore &&
      (IsUnit(Velocity(velocityX, velocityY)) || Velocity(velocityX, velocityY) == Still) &&
      (|body| > 0 ==> body[0] == Pos(headX, headY)) &&
      (!gameOver ==> InBoard(Pos(headX, headY)) && forall k :: 0 <= k < |body| ==> InBoard(body[k])) &&
      (!gameOver && |body| >= 2 ==>
         IsUnit(Heading(body)) && Add(body[0], Velocity(velocityX, velocityY)) != body[1])
    }

    /** The state when the script loads: random food and head, nothing else set. */
    constructor (storedHighScore: nat, initialFoodX: int, initialFoodY: int, initialHeadX: int, initialHeadY: int)
      requires InBoard(Pos(initialFoodX, initialFoodY)) && InBoard(Pos(initialHeadX, initialHeadY))
      ensures Valid()
      ensures foodX == initialFoodX && foodY == initialFoodY
      ensures headX == initialHeadX && headY == initialHeadY
      ensures body == [] && velocityX == 0 && velocityY == 0
      ensures !gameOver && score == 0 && highScore == storedHighScore
    {
      foodX := initialFoodX;
      foodY := initialFoodY;
      headX := initialHeadX;
      headY := initialHeadY;
      body := [];
      velocityX := 0;
      velocityY := 0;
      gameOver := false;
      score := 0;
      highScore := storedHighScore;
    }

    predicate IsSnakeReachingFood()
      reads this
    {
      headX == foodX && headY == foodY
    }

    /** Places the food on a freshly drawn cell. */
    method ChangeFoodPosition(x: int, y: int)
      requires InBoard(Pos(x, y))
      modifies this`foodX, this`foodY
      ensures foodX == x && foodY == y
    {
      foodX := x;
      foodY := y;
    }

    /** Places the head on a freshly drawn cell. */
    method ChangeSnakesHeadPosition(x: int, y: int)
      requires InBoard(Pos(x, y))
      modifies this`headX, this`headY
      ensures headX == x && headY == y
    {
      headX := x;
      headY := y;
    }

    /** Appends the food's cell to the end of the body. */
    method EatFood()
      modifies this`body
      ensures body == old(body) + [Pos(foodX, foodY)]
    {
      body := body + [Pos(foodX, foodY)];
    }

    /**
     * Counts one more food and raises the stored high score to the new
     * score when, and only when, the score now exceeds it.
     */
    method UpdateScores()
      modifies this`score, this`highScore
      ensures score == old(score) + 1
      ensures highScore == Max(old(highScore), score)
      ensures highScore != old(highScore) ==> score > old(highScore)
    {
      score := score + 1;
      if score > highScore {
        highScore := score;
      }
    }

    /**
     * Moves every segment into the place of the one ahead of it, from the
     * tail forwards; the head cell stays where it is until MoveHead.
     */
    method ShiftBody()
      modifies this`body
      ensures |body| == |old(body)|
      ensures |body| > 0 ==> body[0] == old(body)[0] && body[1..] == old(body)[..|body| - 1]
    {
      var index := |body| - 1;
      while index > 0
        invariant |body| == |old(body)|
        invariant if |body| == 0 then index == -1 else 0 <= index < |body|
        invariant forall k :: 0 <= k <= index ==> body[k] == old(body)[k]
        invariant forall k :: index < k < |body| ==> body[k] == old(body)[k - 1]
      {
        body := body[index := body[index - 1]];
        index := index - 1;
      }
    }

    /** Adds the velocity to the head and writes the head into index 0, creating it if needed. */
    method MoveHead()
      modifies this`headX, this`headY, this`body
      ensures headX == old(headX) + velocityX && headY == old(headY) + velocityY
      ensures body == [Pos(headX, headY)] + (if old(body) == [] then [] else old(body)[1..])
    {
      headX := headX + velocityX;
      headY := headY + velocityY;
      if |body| == 0 {
        body := [Pos(headX, headY)];
      } else {
        body := body[0 := Pos(headX, headY)];
      }
    }

    /** Ends the game when any segment behind the head occupies the head's cell. */
    method CheckSelfCollision()
      requires |body| > 0
      modifies this`gameOver
      ensures gameOver == (old(gameOver) || BitesItself(body))
    {
      var i := 0;
      while i < |body|
        invariant 0 <= i <= |body|
        invariant gameOver == (old(gameOver) || exists k :: 1 <= k < i && body[k] == body[0])
      {
        var head := body[0];
        if i != 0 && head == body[i] {
          gameOver := true;
        }
        i := i + 1;
      }
    }

    /** One tick of the game. */
    method Step(nextFoodX: int, nextFoodY: int)
      requires Valid()
      requires InBoard(Pos(nextFoodX, nextFoodY))
      modifies this
      ensures Valid()
      ensures velocityX == old(velocityX) && velocityY == old(velocityY)
      ensures headX == old(headX) + velocityX && headY == old(headY) + velocityY
      ensures |body| > 0 && body[0] == Pos(headX, headY)
      // the body: grows by the old head's successor, drops the tail unless fed
      ensures old(body) == [] ==> body == [Pos(headX, headY)]
      ensures old(body) != [] && old(IsSnakeReachingFood()) ==> body == [Pos(headX, headY)] + old(body)
      ensures old(body) != [] && !old(IsSnakeReachingFood()) ==>
                body == [Pos(headX, headY)] + old(body)[..|old(body)| - 1]
      // food and scores
      ensures old(IsSnakeReachingFood()) ==>
                foodX == nextFoodX && foodY == nextFoodY &&
                score == old(score) + 1 && highScore == Max(old(highScore), score)
      ensures !old(IsSnakeReachingFood()) ==>
                foodX == old(foodX) && foodY == old(foodY) &&
                score == old(score) && highScore == old(highScore)
      // the tick never clears gameOver; it sets it on leaving the board or biting the body
      ensures gameOver == (old(gameOver) || MovedOutOfBoardBoundaries(headX, headY) || BitesItself(body))
    {
      ghost var ate := IsSnakeReachingFood();
      if IsSnakeReachingFood() {
        EatFood();
        ChangeFoodPosition(nextFoodX, nextFoodY);
        UpdateScores();
      }
      ghost var fed := body;
      ShiftBody();
      MoveHead();
      ghost var tail := if fed == [] then [] else fed[..|fed| - 1];
      assert body == [Pos(headX, headY)] + tail;
      assert ate ==> tail == old(body);
      assert !ate && old(body) != [] ==> tail == old(body)[..|old(body)| - 1];
      if MovedOutOfBoardBoundaries(headX, headY) {
        gameOver := true;
      }
      CheckSelfCollision();
    }

    /** A key press (or an on-screen control carrying the same key name). */
    method ChangeSnakeHeadDirection(key: string)
      requires Valid()
      modifies this`velocityX, this`velocityY
      ensures Valid()
      ensures Velocity(velocityX, velocityY) == Turn(body, old(Velocity(velocityX, velocityY)), key)
    {
      ghost var v0 := Velocity(velocityX, velocityY);
      if key == "ArrowLeft" && CanChangeHorizontalDirection(body) {
        velocityY := 0;
        velocityX := -1;
      }
      if key == "ArrowRight" && CanChangeHorizontalDirection(body) {
        velocityY := 0;
        velocityX := 1;
      }
      if key == "ArrowUp" && CanChangeVerticalDirection(body) {
        velocityY := -1;
        velocityX := 0;
      }
      if key == "ArrowDown" && CanChangeVerticalDirection(body) {
        velocityY := 1;
        velocityX := 0;
      }
      if !gameOver && |body| >= 2 {
        TurnKeepsOffNeck(body, v0, key);
      }
    }

    /** Starts a new game; the stored high score carries over. */
    method ResetGame(newHeadX: int, newHeadY: int, newFoodX: int, newFoodY: int)
      requires InBoard(Pos(newHeadX, newHeadY)) && InBoard(Pos(newFoodX, newFoodY))
      requires Valid()
      modifies this
      ensures Valid()
      ensures score == 0 && body == [] && !gameOver
      ensures velocityX == 0 && velocityY == 0
      ensures headX == newHeadX && headY == newHeadY
      ensures foodX == newFoodX && foodY == newFoodY
      ensures highScore == old(highScore)
    {
      score := 0;
      body := [];
      gameOver := false;
      velocityX := 0;
      velocityY := 0;
      ChangeSnakesHeadPosition(newHeadX, newHeadY);
      ChangeFoodPosition(newFoodX, newFoodY);
    }
  }

  /**
   * A client that follows a short game using only the contracts above:
   * keys are refused before the first tick, food under the head is eaten
   * on the tick after the head reaches it, and a reversal into the neck is
   * refused while a turn is accepted.
   */
  method OpeningMoves()
  {
    var g := new Game(0, 4, 3, 3, 3);
    g.ChangeSnakeHeadDirection("ArrowRight");
    assert g.velocityX == 0 && g.velocityY == 0;
    g.Step(10, 10);
    assert g.body == [Pos(3, 3)] && !g.gameOver;
    g.ChangeSnakeHeadDirection("ArrowRight");
    assert g.velocityX == 1 && g.velocityY == 0;
    g.Step(10, 10);
    assert g.body == [Pos(4, 3)] && g.score == 0;
    g.Step(20, 20);
    assert g.body == [Pos(5, 3), Pos(4, 3)] && g.score == 1 && g.highScore == 1;
    assert g.foodX == 20 && g.foodY == 20 && !g.gameOver;
    g.ChangeSnakeHeadDirection("ArrowLeft");
    assert g.velocityX == 1 && g.velocityY == 0;
    g.ChangeSnakeHeadDirection("ArrowUp");
    assert g.velocityX == 0 && g.velocityY == -1;
    g.ChangeSnakeHeadDirection("Escape");
    assert g.velocityX == 0 && g.velocityY == -1;
  }

  /** A snake on the left edge that turns left leaves the board and ends the game. */
  method LeavingTheBoard()
  {
    var g := new Game(7, 9, 9, 1, 1);
    g.Step(10, 10);
    g.ChangeSnakeHeadDirection("ArrowLeft");
    g.Step(10, 10);
    assert g.headX == 0 && g.gameOver && g.highScore == 7;
    g.ResetGame(5, 5, 6, 6);
    assert !g.gameOver && g.body == [] && g.highScore == 7;
  }
}
