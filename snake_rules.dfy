/**
 * The value-level rules of the snake game: the board, positions and
 * velocities, the optional lookup into the body that the direction gate
 * relies on, and the key -> velocity rule together with its safety laws.
 */
module SnakeRules {

  /** Number of columns and rows of the board; coordinates are 1-based. */
  const BoardHorizontalSquares: int := 30
  const BoardVerticalSquares: int := 30

  datatype Option<T> = None | Some(value: T)

  /** A board cell; the snake body is a sequence of these, head first. */
  datatype Pos = Pos(x: int, y: int)

  /** The per-tick displacement of the head. */
  datatype Velocity = Velocity(x: int, y: int)

  /** The cells of the board: columns 1..30 and rows 1..30. */
  predicate InBoard(p: Pos) {
    1 <= p.x <= BoardHorizontalSquares && 1 <= p.y <= BoardVerticalSquares
  }

  /** The boundary test of the game, on the head coordinates it reads. */
  function MovedOutOfBoardBoundaries(headX: int, headY: int): (r: bool)
    ensures r <==> !InBoard(Pos(headX, headY))
  {
    headX <= 0 || headX > BoardHorizontalSquares || headY <= 0 || headY > BoardVerticalSquares
  }

  function Add(p: Pos, v: Velocity): (r: Pos) {
    Pos(p.x + v.x, p.y + v.y)
  }

  /** A unit step along exactly one axis. */
  predicate IsUnit(v: Velocity) {
    (v.x == 0 && (v.y == 1 || v.y == -1)) || (v.y == 0 && (v.x == 1 || v.x == -1))
  }

  /** The velocity before any direction has been chosen. */
  const Still: Velocity := Velocity(0, 0)

  /** The displacement from the neck (index 1) to the head (index 0). */
  function Heading(body: seq<Pos>): (r: Velocity)
    requires |body| >= 2
  {
    Velocity(body[0].x - body[1].x, body[0].y - body[1].y)
  }

  /** Some segment behind the head occupies the head's cell. */
  predicate BitesItself(body: seq<Pos>) {
    |body| > 0 && exists k :: 1 <= k < |body| && body[k] == body[0]
  }

  // ---------------------------------------------------------------------
  // Optional lookup: `body[i]?.[0]` and `body[i]?.[1]`
  // ---------------------------------------------------------------------

  function At(body: seq<Pos>, i: nat): (r: Option<Pos>) {
    if i < |body| then Some(body[i]) else None
  }

  function XAt(body: seq<Pos>, i: nat): (r: Option<int>) {
    match At(body, i)
    case None => None
    case Some(p) => Some(p.x)
  }

  function YAt(body: seq<Pos>, i: nat): (r: Option<int>) {
    match At(body, i)
    case None => None
    case Some(p) => Some(p.y)
  }

  /**
   * Up and Down are allowed when head and neck are in different columns,
   * compared under optional lookup: a missing segment reads as None, so an
   * empty body compares None with None and refuses.
   */
  function CanChangeVerticalDirection(body: seq<Pos>): (r: bool)
    ensures |body| == 0 ==> !r
    ensures |body| == 1 ==> r
    ensures |body| >= 2 ==> (r <==> body[0].x != body[1].x)
  {
    XAt(body, 0) != XAt(body, 1)
  }

  /** Left and Right are allowed when head and neck are in different rows. */
  function CanChangeHorizontalDirection(body: seq<Pos>): (r: bool)
    ensures |body| == 0 ==> !r
    ensures |body| == 1 ==> r
    ensures |body| >= 2 ==> (r <==> body[0].y != body[1].y)
  {
    YAt(body, 0) != YAt(body, 1)
  }

  // ---------------------------------------------------------------------
  // Keys and the direction rule
  // ---------------------------------------------------------------------

  /** The unit velocity a direction key asks for; None for any other key. */
  function KeyDirection(key: string): (r: Option<Velocity>)
    ensures r.Some? ==> IsUnit(r.value)
  {
    if key == "ArrowLeft" then Some(Velocity(-1, 0))
    else if key == "ArrowRight" then Some(Velocity(1, 0))
    else if key == "ArrowUp" then Some(Velocity(0, -1))
    else if key == "ArrowDown" then Some(Velocity(0, 1))
    else None
  }

  /** The gate that guards the key: horizontal keys by row, vertical keys by column. */
  predicate Accepts(body: seq<Pos>, key: string) {
    match KeyDirection(key)
    case None => false
    case Some(d) => if d.y == 0 then CanChangeHorizontalDirection(body) else CanChangeVerticalDirection(body)
  }

  /** The velocity after one key press, given the body and the velocity before it. */
  function Turn(body: seq<Pos>, v: Velocity, key: string): (r: Velocity)
    ensures Accepts(body, key) ==> IsUnit(r) && Some(r) == KeyDirection(key)
    ensures !Accepts(body, key) ==> r == v
    ensures KeyDirection(key).None? ==> r == v
    ensures |body| == 0 ==> r == v
    ensures |body| == 1 && KeyDirection(key).Some? ==> r == KeyDirection(key).value
  {
    if key == "ArrowLeft" && CanChangeHorizontalDirection(body) then Velocity(-1, 0)
    else if key == "ArrowRight" && CanChangeHorizontalDirection(body) then Velocity(1, 0)
    else if key == "ArrowUp" && CanChangeVerticalDirection(body) then Velocity(0, -1)
    else if key == "ArrowDown" && CanChangeVerticalDirection(body) then Velocity(0, 1)
    else v
  }

  /** The velocity after a run of key presses between two ticks (last write wins). */
  function TurnAll(body: seq<Pos>, v: Velocity, keys: seq<string>): (r: Velocity)
    decreases |keys|
  {
    if keys == [] then v else TurnAll(body, Turn(body, v, keys[0]), keys[1..])
  }

  /** Every velocity reached by key presses is the start velocity or a unit step. */
  lemma {:induction false} TurnAllIsUnitOrUnchanged(body: seq<Pos>, v: Velocity, keys: seq<string>)
    ensures var r := TurnAll(body, v, keys); r == v || IsUnit(r)
    decreases |keys|
  {
    if keys != [] {
      var v1 := Turn(body, v, keys[0]);
      TurnAllIsUnitOrUnchanged(body, v1, keys[1..]);
    }
  }

  /** Before the first tick the body is empty and no key press changes the velocity. */
  lemma {:induction false} EmptyBodyRejectsEveryKey(v: Velocity, keys: seq<string>)
    ensures TurnAll([], v, keys) == v
    decreases |keys|
  {
    if keys != [] {
      EmptyBodyRejectsEveryKey(Turn([], v, keys[0]), keys[1..]);
    }
  }

  /** Keys that are not arrow keys never change the velocity, whatever the body. */
  lemma {:induction false} OtherKeysKeepVelocity(body: seq<Pos>, v: Velocity, keys: seq<string>)
    requires forall i :: 0 <= i < |keys| ==> KeyDirection(keys[i]).None?
    ensures TurnAll(body, v, keys) == v
    decreases |keys|
  {
    if keys != [] {
      assert KeyDirection(keys[0]).None?;
      OtherKeysKeepVelocity(body, v, keys[1..]);
    }
  }

  /**
   * With a single segment the last arrow key of a run decides the velocity:
   * `j` is the position of that key, and only other keys follow it.
   */
  lemma {:induction false} SingleSegmentAcceptsEveryKey(p: Pos, v: Velocity, keys: seq<string>, j: nat)
    requires j < |keys| && KeyDirection(keys[j]).Some?
    requires forall i :: j < i < |keys| ==> KeyDirection(keys[i]).None?
    ensures TurnAll([p], v, keys) == KeyDirection(keys[j]).value
    decreases |keys|
  {
    var v1 := Turn([p], v, keys[0]);
    if j == 0 {
      OtherKeysKeepVelocity([p], v1, keys[1..]);
    } else {
      SingleSegmentAcceptsEveryKey(p, v1, keys[1..], j - 1);
    }
  }

  /**
   * The head never points back into the neck: a key press is accepted only
   * along the axis on which head and neck differ, so when `head + velocity`
   * is off the neck before the press, it is off the neck after it.
   */
  lemma TurnKeepsOffNeck(body: seq<Pos>, v: Velocity, key: string)
    requires |body| >= 2
    requires Add(body[0], v) != body[1]
    ensures Add(body[0], Turn(body, v, key)) != body[1]
  {
  }

  /** The same for any run of key presses between two ticks. */
  lemma {:induction false} TurnAllKeepsOffNeck(body: seq<Pos>, v: Velocity, keys: seq<string>)
    requires |body| >= 2
    requires Add(body[0], v) != body[1]
    ensures Add(body[0], TurnAll(body, v, keys)) != body[1]
    decreases |keys|
  {
    if keys != [] {
      TurnKeepsOffNeck(body, v, keys[0]);
      TurnAllKeepsOffNeck(body, Turn(body, v, keys[0]), keys[1..]);
    }
  }

  /**
   * Right after a tick the head sits one velocity step ahead of the neck;
   * no run of key presses can then reverse the snake into its neck.
   */
  lemma NoReversalIntoNeck(body: seq<Pos>, v: Velocity, keys: seq<string>)
    requires |body| >= 2 && IsUnit(v) && body[0] == Add(body[1], v)
    ensures Add(body[0], TurnAll(body, v, keys)) != body[1]
  {
    TurnAllKeepsOffNeck(body, v, keys);
  }
}
