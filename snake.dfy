/** The snake game on a 20x20 grid: one step of the snake per tick, the
    steering rule that refuses an exact reversal, food placement by retrying
    random cells, and the reset to the starting position. */
module Snake {
  import opened Types

  datatype Point = Point(x: int, y: int)
  datatype Direction = Up | Down | Left | Right

  const GridSize: int := 20
  const InitialSnake: seq<Point> := [Point(10, 10), Point(10, 11), Point(10, 12)]
  const InitialDirection: Direction := Up
  const InitialSpeed: int := 150
  const MinSpeed: int := 60
  const InitialFood: Point := Point(5, 5)

  predicate InGrid(p: Point)
  {
    0 <= p.x < GridSize && 0 <= p.y < GridSize
  }

  function Opposite(d: Direction): Direction
  {
    match d
    case Up => Down
    case Down => Up
    case Left => Right
    case Right => Left
  }

  lemma OppositeInvolution(d: Direction)
    ensures Opposite(d) != d && Opposite(Opposite(d)) == d
  {
  }

  /** The cell one step from `p` in direction `d`; y grows downwards. */
  function Step(p: Point, d: Direction): (q: Point)
    ensures Adjacent(p, q)
  {
    match d
    case Up => p.(y := p.y - 1)
    case Down => p.(y := p.y + 1)
    case Left => p.(x := p.x - 1)
    case Right => p.(x := p.x + 1)
  }

  /** Two cells that share a side. */
  predicate Adjacent(p: Point, q: Point)
  {
    (p.x == q.x && (p.y - q.y == 1 || q.y - p.y == 1))
    || (p.y == q.y && (p.x - q.x == 1 || q.x - p.x == 1))
  }

  /** Stepping back the opposite way returns to the start, and the four
      directions lead to four different cells. */
  lemma StepInverse(p: Point, d: Direction, e: Direction)
    ensures Step(Step(p, d), Opposite(d)) == p
    ensures d != e ==> Step(p, d) != Step(p, e)
  {
  }

  /** The direction after asking for `requested` while heading `current`: the
      request is taken unless it is the exact reverse of the current heading. */
  function Steer(current: Direction, requested: Direction): (d: Direction)
    ensures d == requested || d == current
    ensures d != Opposite(current)
    ensures d == requested <==> requested != Opposite(current)
  {
    if current != Opposite(requested) then requested else current
  }

  /** The rule compares a request with the latest request, not with the
      direction of the last step: two presses within one tick, left then
      down while the snake heads up, turn it straight back onto its neck. */
  lemma TwoPressesReverse()
    ensures Steer(Steer(Up, Left), Down) == Opposite(Up)
  {
  }

  /** What a key press asks for. */
  datatype Command = Turn(d: Direction) | Pause

  /** The keys the game listens to: arrows and WASD in either case steer,
      the space bar pauses, every other key is ignored. */
  function KeyCommand(key: string): (c: Option<Command>)
    ensures c == Some(Pause) <==> key == " "
    ensures c.Some? && c.value.Turn? ==> |key| == 1 || (|key| >= 6 && key[..5] == "Arrow")
  {
    if key == "ArrowUp" || key == "w" || key == "W" then Some(Turn(Up))
    else if key == "ArrowDown" || key == "s" || key == "S" then Some(Turn(Down))
    else if key == "ArrowLeft" || key == "a" || key == "A" then Some(Turn(Left))
    else if key == "ArrowRight" || key == "d" || key == "D" then Some(Turn(Right))
    else if key == " " then Some(Pause)
    else None
  }

  /** A snake the game can show: head first, every segment on the grid, no
      two segments on one cell, each segment next to the one behind it. */
  predicate WellFormedSnake(s: seq<Point>)
  {
    && |s| >= 1
    && (forall i :: 0 <= i < |s| ==> InGrid(s[i]))
    && (forall i, j :: 0 <= i < j < |s| ==> s[i] != s[j])
    && (forall i :: 0 <= i < |s| - 1 ==> Adjacent(s[i], s[i + 1]))
  }

  lemma InitialSnakeWellFormed()
    ensures WellFormedSnake(InitialSnake) && |InitialSnake| == 3
    ensures InGrid(InitialFood) && InitialFood !in InitialSnake
  {
  }

  /** A new head on a free grid cell next to the old head gives a well-formed
      snake, whether the snake grows or drops its last segment. */
  lemma AdvanceKeepsShape(s: seq<Point>, head: Point)
    requires WellFormedSnake(s)
    requires InGrid(head) && head !in s && Adjacent(head, s[0])
    ensures WellFormedSnake([head] + s)
    ensures |s| >= 2 ==> WellFormedSnake([head] + s[..|s| - 1])
  {
    var grown := [head] + s;
    assert forall i :: 1 <= i < |grown| ==> grown[i] == s[i - 1];
    if |s| >= 2 {
      var moved := [head] + s[..|s| - 1];
      assert forall i :: 0 <= i < |moved| ==> moved[i] == grown[i];
    }
  }

  /** The speed that goes with a score: 10 slower-than-start steps less for
      every 50 points, and never faster than one step per 60 ms. */
  function SpeedFor(score: int): (speed: int)
    requires score >= 0
    ensures MinSpeed <= speed <= InitialSpeed
  {
    var s := InitialSpeed - 10 * (score / 50);
    if s < MinSpeed then MinSpeed else s
  }

  /** Ten more points lower the speed by 10, down to 60, exactly when the new
      score is a multiple of 50. */
  lemma SpeedAfterEating(score: int)
    requires score >= 0 && score % 10 == 0
    ensures var next := score + 10;
      SpeedFor(next) == if next % 50 == 0 then (if SpeedFor(score) - 10 < MinSpeed then MinSpeed else SpeedFor(score) - 10)
                        else SpeedFor(score)
  {
    var next := score + 10;
    var q, r := score / 50, score % 50;
    assert score == 50 * q + r;
    if r == 40 {
      DivideByFifty(next, q + 1, 0);
    } else {
      assert r + 10 < 50;
      DivideByFifty(next, q, r + 10);
    }
  }

  lemma DivideByFifty(n: int, q: int, r: int)
    requires n == 50 * q + r && 0 <= r < 50
    ensures n / 50 == q && n % 50 == r
  {
  }

  /** Places food: tries the random cells `draws` in turn and keeps the first
      one the snake does not cover. The random source is assumed to come up
      with a free cell eventually. */
  method GenerateFood(snake: seq<Point>, draws: seq<Point>) returns (food: Point, tries: nat)
    requires forall i :: 0 <= i < |draws| ==> InGrid(draws[i])
    requires exists i :: 0 <= i < |draws| && draws[i] !in snake
    ensures tries < |draws| && food == draws[tries]
    ensures InGrid(food) && food !in snake
    ensures forall i :: 0 <= i < tries ==> draws[i] in snake
  {
    tries := 0;
    while draws[tries] in snake
      invariant 0 <= tries < |draws|
      invariant forall i :: 0 <= i < tries ==> draws[i] in snake
      invariant exists i :: tries <= i < |draws| && draws[i] !in snake
      decreases |draws| - tries
    {
      tries := tries + 1;
    }
    food := draws[tries];
  }

  class SnakeGame {
    var snake: seq<Point>
    var direction: Direction
    var food: Point
    var score: int
    var highScore: int
    var isGameOver: bool
    var isPaused: bool
    var speed: int

    /** The snake is well formed and at least three long, ten points are
        scored per segment grown, the speed follows the score, the food lies
        on a free grid cell, and the high score is at least the score. */
    ghost predicate Valid()
      reads this
    {
      && WellFormedSnake(snake) && |snake| >= 3
      && score == 10 * (|snake| - 3)
      && speed == SpeedFor(score)
      && highScore >= score
      && InGrid(food) && food !in snake
    }

    /** A fresh game; `storedHighScore` is the best score kept from earlier
        games, 0 when there is none. */
    constructor (storedHighScore: int)
      requires storedHighScore >= 0
      ensures Valid()
      ensures snake == InitialSnake && direction == InitialDirection && food == InitialFood
      ensures score == 0 && highScore == storedHighScore && speed == InitialSpeed
      ensures !isGameOver && !isPaused
    {
      InitialSnakeWellFormed();
      snake := InitialSnake;
      direction := InitialDirection;
      food := InitialFood;
      score := 0;
      highScore := storedHighScore;
      isGameOver := false;
      isPaused := false;
      speed := InitialSpeed;
    }

    /** A steering request from a key or an on-screen button. */
    method ChangeDirection(requested: Direction)
      modifies this
      ensures direction == Steer(old(direction), requested)
      ensures snake == old(snake) && food == old(food) && score == old(score) && highScore == old(highScore)
      ensures isGameOver == old(isGameOver) && isPaused == old(isPaused) && speed == old(speed)
    {
      if direction != Opposite(requested) {
        direction := requested;
      }
    }

    method TogglePause()
      modifies this
      ensures isPaused == !old(isPaused)
      ensures snake == old(snake) && direction == old(direction) && food == old(food) && score == old(score)
      ensures highScore == old(highScore) && isGameOver == old(isGameOver) && speed == old(speed)
    {
      isPaused := !isPaused;
    }

    /** A key press: steering keys go through the steering rule, the space
        bar toggles the pause, other keys change nothing. */
    method HandleKey(key: string)
      modifies this
      ensures KeyCommand(key) == None ==> unchanged(this)
      ensures KeyCommand(key) == Some(Pause) ==> isPaused == !old(isPaused) && direction == old(direction)
      ensures KeyCommand(key).Some? && KeyCommand(key).value.Turn? ==>
        direction == Steer(old(direction), KeyCommand(key).value.d) && isPaused == old(isPaused)
      ensures snake == old(snake) && food == old(food) && score == old(score) && highScore == old(highScore)
      ensures isGameOver == old(isGameOver) && speed == old(speed)
    {
      var command := KeyCommand(key);
      match command
      case None =>
      case Some(Turn(d)) => ChangeDirection(d);
      case Some(Pause) => TogglePause();
    }

    /** One tick. Nothing happens when the game is over or paused. Otherwise
        the head moves one cell; a head off the grid or on any segment, the
        last one included, ends the game and keeps the snake; a head on the
        food grows the snake, scores 10, may speed the game up and places new
        food from `draws`; any other head drops the last segment. */
    method MoveSnake(draws: seq<Point>)
      requires Valid()
      requires forall i :: 0 <= i < |draws| ==> InGrid(draws[i])
      requires Step(snake[0], direction) == food ==>
        exists i :: 0 <= i < |draws| && draws[i] != food && draws[i] !in snake
      modifies this
      ensures Valid()
      ensures direction == old(direction) && isPaused == old(isPaused)
      ensures old(isGameOver) || old(isPaused) ==> unchanged(this)
      ensures !old(isGameOver) && !old(isPaused) ==>
        var head := Step(old(snake)[0], old(direction));
        if !InGrid(head) || head in old(snake) then
          && isGameOver && snake == old(snake) && food == old(food)
          && score == old(score) && highScore == old(highScore) && speed == old(speed)
        else if head == old(food) then
          && !isGameOver && snake == [head] + old(snake)
          && score == old(score) + 10
          && highScore == (if score > old(highScore) then score else old(highScore))
          && speed == (if score % 50 == 0 then (if old(speed) - 10 < MinSpeed then MinSpeed else old(speed) - 10) else old(speed))
          && food in draws && food !in snake
        else
          && !isGameOver && snake == [head] + old(snake)[..|old(snake)| - 1]
          && food == old(food) && score == old(score) && highScore == old(highScore) && speed == old(speed)
    {
      if isGameOver || isPaused {
        return;
      }
      var head := snake[0];
      var newHead := head;
      match direction {
        case Up => newHead := newHead.(y := newHead.y - 1);
        case Down => newHead := newHead.(y := newHead.y + 1);
        case Left => newHead := newHead.(x := newHead.x - 1);
        case Right => newHead := newHead.(x := newHead.x + 1);
      }
      assert newHead == Step(snake[0], direction);
      if newHead.x < 0 || newHead.x >= GridSize || newHead.y < 0 || newHead.y >= GridSize {
        isGameOver := true;
        return;
      }
      if newHead in snake {
        isGameOver := true;
        return;
      }
      if newHead == food {
        Grow(newHead, draws);
      } else {
        Crawl(newHead);
      }
    }

    /** The head moves onto the food: the snake grows by the new head, the
        score goes up by 10, the high score follows it, every 50 points the
        game speeds up, and new food is placed from `draws`. */
    method Grow(newHead: Point, draws: seq<Point>)
      requires Valid() && newHead == food && Adjacent(newHead, snake[0])
      requires forall i :: 0 <= i < |draws| ==> InGrid(draws[i])
      requires exists i :: 0 <= i < |draws| && draws[i] != food && draws[i] !in snake
      modifies this
      ensures Valid()
      ensures snake == [newHead] + old(snake) && score == old(score) + 10
      ensures highScore == (if score > old(highScore) then score else old(highScore))
      ensures speed == (if score % 50 == 0 then (if old(speed) - 10 < MinSpeed then MinSpeed else old(speed) - 10) else old(speed))
      ensures food in draws && food !in snake
      ensures direction == old(direction) && isGameOver == old(isGameOver) && isPaused == old(isPaused)
    {
      AdvanceKeepsShape(snake, newHead);
      var newSnake := [newHead] + snake;
      var newScore := score + 10;
      if newScore > highScore {
        highScore := newScore;
      }
      assert score % 10 == 0;
      SpeedAfterEating(score);
      if newScore % 50 == 0 {
        speed := if speed - 10 < MinSpeed then MinSpeed else speed - 10;
      }
      score := newScore;
      var tries;
      food, tries := GenerateFood(newSnake, draws);
      snake := newSnake;
    }

    /** The head moves onto a free cell without food: the snake keeps its
        length by dropping its last segment, and nothing else changes. */
    method Crawl(newHead: Point)
      requires Valid() && InGrid(newHead) && newHead !in snake && newHead != food && Adjacent(newHead, snake[0])
      modifies this
      ensures Valid()
      ensures snake == [newHead] + old(snake)[..|old(snake)| - 1]
      ensures food == old(food) && score == old(score) && highScore == old(highScore) && speed == old(speed)
      ensures direction == old(direction) && isGameOver == old(isGameOver) && isPaused == old(isPaused)
    {
      AdvanceKeepsShape(snake, newHead);
      var newSnake := [newHead] + snake;
      newSnake := newSnake[..|newSnake| - 1];
      assert newSnake == [newHead] + snake[..|snake| - 1];
      snake := newSnake;
    }

    /** Back to the starting snake, heading up, score 0 and starting speed,
        with food placed from `draws`; the high score is kept. */
    method Reset(draws: seq<Point>)
      requires highScore >= 0
      requires forall i :: 0 <= i < |draws| ==> InGrid(draws[i])
      requires exists i :: 0 <= i < |draws| && draws[i] !in InitialSnake
      modifies this
      ensures Valid()
      ensures snake == InitialSnake && direction == InitialDirection
      ensures food in draws && score == 0 && speed == InitialSpeed
      ensures highScore == old(highScore) && !isGameOver && !isPaused
    {
      InitialSnakeWellFormed();
      snake := InitialSnake;
      direction := InitialDirection;
      var tries;
      food, tries := GenerateFood(InitialSnake, draws);
      score := 0;
      speed := InitialSpeed;
      isGameOver := false;
      isPaused := false;
    }
  }
}
