/** `key_press` (project4.py, lines 44-60) without the canvas: a key moves
    the board, and only a move that reports `moved` spawns a tile and asks
    `can_move` whether the game is over. */
module Keys {
  import opened LineReducer
  import opened Grid
  import opened Moves
  import opened Scan
  import opened Spawning

  datatype Option<T> = None | Some(value: T)

  /** Line 45: the only key names `key_press` reacts to. */
  function KeyDirection(key: string): (d: Option<Direction>)
    ensures d.None? <==> key !in {"Up", "Down", "Left", "Right"}
  {
    if key == "Up" then Some(Up)
    else if key == "Down" then Some(Down)
    else if key == "Left" then Some(Left)
    else if key == "Right" then Some(Right)
    else None
  }

  /** What one key press leaves: the board, the score, and whether
      `game_over` was called (line 58). */
  datatype Turn = Turn(board: Board, score: int, gameOver: bool)

  /** Lines 45-60, with the draws of `add_random_tile` given as `pick`
      and `four`. Game over does not stop later key presses. */
  function Press(g: Board, score: int, key: string, pick: nat, four: bool): Turn
  {
    match KeyDirection(key)
    case None => Turn(g, score, false)
    case Some(d) => Play(g, score, d, pick, four)
  }

  /** Lines 47-58 once the key has named direction d. */
  function Play(g: Board, score: int, d: Direction, pick: nat, four: bool): Turn
  {
    var o := Step(g, d);
    if o.moved then
      var b := Spawn(o.board, pick, four);
      Turn(b, score + o.gain, !CanMove(b))
    else
      Turn(o.board, score + o.gain, false)
  }

  /** Any other key leaves the game as it is. */
  lemma OtherKeysIgnored(g: Board, score: int, key: string, pick: nat, four: bool)
    requires key !in {"Up", "Down", "Left", "Right"}
    ensures Press(g, score, key, pick, four) == Turn(g, score, false)
  {
  }

  /** A press that moves nothing scores nothing; for Left and Down it
      leaves the board as it was too. */
  lemma UnmovedPressKeepsScore(g: Board, score: int, key: string, pick: nat, four: bool)
    requires KeyDirection(key).Some? && !Step(g, KeyDirection(key).value).moved
    ensures Press(g, score, key, pick, four).score == score
    ensures !Press(g, score, key, pick, four).gameOver
    ensures key in {"Left", "Down"} ==> Press(g, score, key, pick, four).board == g
  {
    var d := KeyDirection(key).value;
    var o := Step(g, d);
    assert Press(g, score, key, pick, four) == Turn(o.board, score + o.gain, false);
    UnmovedScoresNothing(g, d);
    if key == "Left" {
      LeftMovedIff(g);
    } else if key == "Down" {
      DownMovedIff(g);
    }
  }

  /** On a board without negative cells the score never goes down. */
  lemma PressScoreGrows(g: Board, score: int, key: string, pick: nat, four: bool)
    requires NonNegative(g)
    ensures Press(g, score, key, pick, four).score >= score
  {
    if KeyDirection(key).Some? {
      GainNonNegative(g, KeyDirection(key).value);
    }
  }

  /** A board of tiles and empty cells stays one. */
  lemma PressKeepsTiles(g: Board, score: int, key: string, pick: nat, four: bool)
    requires TilesOnly(g)
    ensures TilesOnly(Press(g, score, key, pick, four).board)
  {
    if KeyDirection(key).Some? {
      var d := KeyDirection(key).value;
      StepKeepsTiles(g, d);
      SpawnKeepsTiles(Step(g, d).board, pick, four);
    }
  }

  /** When a press declares the game over and the bottom-right corner is
      filled, no key can move anything on the new board. */
  lemma GameOverIsFinal(g: Board, score: int, key: string, pick: nat, four: bool, d: Direction)
    requires Press(g, score, key, pick, four).gameOver
    requires Press(g, score, key, pick, four).board[At(N - 1, N - 1)] != 0
    ensures !Step(Press(g, score, key, pick, four).board, d).moved
  {
    GameOverSound(Press(g, score, key, pick, four).board, d);
  }

  /** A press whose move reports a change adds exactly one tile to the
      board the move left, since that board has an empty cell. */
  lemma MovedPressAddsOneTile(g: Board, score: int, d: Direction, pick: nat, four: bool)
    requires Step(g, d).moved
    ensures TileCount(Play(g, score, d, pick, four).board) == TileCount(Step(g, d).board) + 1
  {
    MovedLeavesGap(g, d);
    SpawnFillsOneGap(Step(g, d).board, pick, four);
  }

  /** A press whose move reports nothing adds no tile. */
  lemma UnmovedPressAddsNoTile(g: Board, score: int, d: Direction, pick: nat, four: bool)
    requires !Step(g, d).moved
    ensures Play(g, score, d, pick, four).board == Step(g, d).board
  {
  }

  /** From a board of tiles and empty cells, such as every board a game
      reaches from `start_game`, a press keeps the board one and never
      lowers the score. */
  lemma PressFromTiles(g: Board, score: int, key: string, pick: nat, four: bool)
    requires TilesOnly(g)
    ensures TilesOnly(Press(g, score, key, pick, four).board)
    ensures Press(g, score, key, pick, four).score >= score
  {
    TilesNonNegative(g);
    PressKeepsTiles(g, score, key, pick, four);
    PressScoreGrows(g, score, key, pick, four);
  }
}
