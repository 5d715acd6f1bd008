/** The `Game2048` class of project4.py without its Tkinter widgets: the
    board and the score it keeps as fields, and the methods that change
    them in place, each proved against the functions of the other
    modules. */
module Engine {
  import opened LineReducer
  import opened Grid
  import opened Moves
  import opened Spawning
  import opened Keys

  class Game2048 {
    /** `self.board`, its 4x4 cells in row-major order. */
    var board: array<int>
    /** `self.score`. */
    var score: int

    ghost predicate Valid()
      reads this
    {
      board.Length == N * N
    }

    /** Lines 6-14 without the window: `start_game` on a fresh game. */
    constructor (pick1: nat, four1: bool, pick2: nat, four2: bool)
      ensures Valid() && fresh(board)
      ensures board[..] == Opening(pick1, four1, pick2, four2)
      ensures score == 0 && TilesOnly(board[..])
    {
      board := new int[N * N](_ => 0);
      score := 0;
      new;
      StartGame(pick1, four1, pick2, four2);
    }

    /** Lines 28-32: a zero board, a zero score and two random tiles. */
    method StartGame(pick1: nat, four1: bool, pick2: nat, four2: bool)
      modifies this
      ensures Valid() && fresh(board)
      ensures board[..] == Opening(pick1, four1, pick2, four2)
      ensures score == 0 && TilesOnly(board[..])
    {
      board := new int[N * N](_ => 0);
      score := 0;
      assert board[..] == EmptyBoard();
      AddRandomTile(pick1, four1);
      AddRandomTile(pick2, four2);
      OpeningTilesOnly(pick1, four1, pick2, four2);
    }

    /** Lines 35-36. */
    method RestartGame(pick1: nat, four1: bool, pick2: nat, four2: bool)
      modifies this
      ensures Valid() && fresh(board)
      ensures board[..] == Opening(pick1, four1, pick2, four2)
      ensures score == 0 && TilesOnly(board[..])
    {
      StartGame(pick1, four1, pick2, four2);
    }

    /** Lines 38-42: the empty cells are listed in row-major order and
        the one at `pick` modulo their number receives a 4 if `four`
        holds and a 2 otherwise. */
    method AddRandomTile(pick: nat, four: bool)
      requires Valid()
      modifies board
      ensures board[..] == Spawn(old(board[..]), pick, four)
    {
      var emptyTiles := EmptyCells(board[..]);
      if emptyTiles != [] {
        var k := emptyTiles[pick % |emptyTiles|];
        assert k in emptyTiles;
        board[k] := TileValue(four);
      }
    }

    /** `view[i] = row` (lines 94, 102 and 105): row i of view v is
        overwritten cell by cell; every other cell keeps its value. */
    method WriteViewRow(v: View, i: nat, row: seq<int>)
      requires Valid() && i < N && |row| == N
      modifies board
      ensures forall p, q :: 0 <= p < N && 0 <= q < N ==>
        board[CellAt(v, p, q)] == if p == i then row[q] else old(board[CellAt(v, p, q)])
    {
      for j := 0 to N
        invariant forall p, q :: 0 <= p < N && 0 <= q < N ==>
          board[CellAt(v, p, q)] == if p == i && q < j then row[q] else old(board[CellAt(v, p, q)])
      {
        board[CellAt(v, i, j)] := row[j];
        forall p, q | 0 <= p < N && 0 <= q < N
          ensures board[CellAt(v, p, q)] == if p == i && q < j + 1 then row[q] else old(board[CellAt(v, p, q)])
        {
          CellInjective(v, i, j, p, q);
        }
      }
    }

    /** Lines 74-107: the rows of view v are reduced (`SweepRows`), then
        the view `BackView(v, transposeBack)` is copied back over the
        board (`CopyBackRows`). Every caller copies back a view whose
        row r lies in board row r. */
    method Move(v: View, transposeBack: bool) returns (moved: bool)
      requires Valid() && RowLocal(BackView(v, transposeBack))
      modifies this, board
      ensures Valid() && board == old(board)
      ensures board[..] == MoveOn(old(board[..]), v, transposeBack).board
      ensures score == old(score) + MoveOn(old(board[..]), v, transposeBack).gain
      ensures moved == MoveOn(old(board[..]), v, transposeBack).moved
    {
      moved := SweepRows(v);
      var w := BackView(v, transposeBack);
      CopyBackRows(w);
    }

    /** Lines 75-97: every row of view v is reduced in turn (`SweepRow`),
        and `moved` is raised when some row reads differently afterwards. */
    method SweepRows(v: View) returns (moved: bool)
      requires Valid()
      modifies this, board
      ensures Valid() && board == old(board)
      ensures board[..] == Swept(old(board[..]), v)
      ensures score == old(score) + RowsScore(old(board[..]), v, N)
      ensures moved == SomeRowChanges(old(board[..]), v, N)
    {
      ghost var g: Board := board[..];
      moved := false;
      for i := 0 to N
        invariant board == old(board)
        invariant forall p, q :: 0 <= p < N && 0 <= q < N ==>
          board[CellAt(v, p, q)] == if p < i then ReduceLine(ViewRow(g, v, p))[q] else g[CellAt(v, p, q)]
        invariant score == old(score) + RowsScore(g, v, i)
        invariant moved == SomeRowChanges(g, v, i)
      {
        var row := ViewRow(g, v, i);
        assert ViewRow(board[..], v, i) == row;
        var changed := SweepRow(v, i);
        if changed {
          moved := true;
        }
        assert RowsScore(g, v, i + 1) == RowsScore(g, v, i) + LineScore(row);
        SomeRowChangesStep(g, v, i);
      }
      SweptByCells(board[..], g, v);
    }

    /** Lines 76-97 for row i of view v: the row is copied, reduced by the
        line reducer and written back through the view; the result says
        whether it reads differently afterwards. */
    method SweepRow(v: View, i: nat) returns (changed: bool)
      requires Valid() && i < N
      modifies this, board
      ensures Valid() && board == old(board)
      ensures forall p, q :: 0 <= p < N && 0 <= q < N ==>
        board[CellAt(v, p, q)] ==
          if p == i then ReduceLine(old(ViewRow(board[..], v, i)))[q] else old(board[CellAt(v, p, q)])
      ensures score == old(score) + LineScore(old(ViewRow(board[..], v, i)))
      ensures changed <==> ReduceLine(old(ViewRow(board[..], v, i))) != old(ViewRow(board[..], v, i))
    {
      var originalRow := ViewRow(board[..], v, i);
      var mergedRow, gained := MergeLine(originalRow);
      score := score + gained;
      WriteViewRow(v, i, mergedRow);
      var written := ViewRow(board[..], v, i);
      assert written == mergedRow;
      changed := written != originalRow;
    }

    /** Lines 99-105: board row r is overwritten with row r of view w,
        read just before. */
    method CopyBackRows(w: View)
      requires Valid() && RowLocal(w)
      modifies board
      ensures board[..] == CopyBack(old(board[..]), w)
    {
      ghost var s: Board := board[..];
      for r := 0 to N
        invariant forall rr, c :: 0 <= rr < N && 0 <= c < N ==>
          board[At(rr, c)] == if rr < r then s[CellAt(w, rr, c)] else s[At(rr, c)]
      {
        var row := ViewRow(board[..], w, r);
        assert row == ViewRow(s, w, r);
        WriteViewRow(Base, r, row);
        forall rr, c | 0 <= rr < N && 0 <= c < N
          ensures board[At(rr, c)] == if rr < r + 1 then s[CellAt(w, rr, c)] else s[At(rr, c)]
        {
          ViewsCompose(Base, rr, c);
          assert CellAt(Base, rr, c) == At(rr, c);
        }
      }
      CopyBackByRows(board[..], s, w);
    }

    /** Line 62-63. */
    method MoveUp() returns (moved: bool)
      requires Valid()
      modifies this, board
      ensures Valid() && board == old(board)
      ensures board[..] == Step(old(board[..]), Up).board
      ensures score == old(score) + Step(old(board[..]), Up).gain
      ensures moved == Step(old(board[..]), Up).moved
    {
      BackViewRowLocal(Up);
      moved := Move(Transpose(Base), true);
    }

    /** Lines 65-66. */
    method MoveDown() returns (moved: bool)
      requires Valid()
      modifies this, board
      ensures Valid() && board == old(board)
      ensures board[..] == Step(old(board[..]), Down).board
      ensures score == old(score) + Step(old(board[..]), Down).gain
      ensures moved == Step(old(board[..]), Down).moved
    {
      BackViewRowLocal(Down);
      moved := Move(FlipUD(Transpose(Base)), true);
    }

    /** Lines 68-69. */
    method MoveLeft() returns (moved: bool)
      requires Valid()
      modifies this, board
      ensures Valid() && board == old(board)
      ensures board[..] == Step(old(board[..]), Left).board
      ensures score == old(score) + Step(old(board[..]), Left).gain
      ensures moved == Step(old(board[..]), Left).moved
    {
      BackViewRowLocal(Left);
      moved := Move(Base, false);
    }

    /** Lines 71-72. */
    method MoveRight() returns (moved: bool)
      requires Valid()
      modifies this, board
      ensures Valid() && board == old(board)
      ensures board[..] == Step(old(board[..]), Right).board
      ensures score == old(score) + Step(old(board[..]), Right).gain
      ensures moved == Step(old(board[..]), Right).moved
    {
      BackViewRowLocal(Right);
      moved := Move(FlipLR(Base), false);
    }

    /** Lines 109-120 as `any(self.can_move())` consumes them: the rows
        are scanned, then the columns, and the first pair that signals
        ends the scan with true; otherwise the final `False` is the
        answer. */
    method CanMove() returns (b: bool)
      requires Valid()
      ensures b == Grid.CanMove(board[..])
    {
      ghost var g: Board := board[..];
      for r := 0 to N
        invariant forall r', c' :: 0 <= r' < r && 0 <= c' < N - 1 ==> !RowSignal(g, r', c')
      {
        for j := 0 to N - 1
          invariant forall r', c' :: (0 <= r' < r || r' == r) && 0 <= c' < N - 1 && (r' < r || c' < j) ==>
            !RowSignal(g, r', c')
        {
          if board[At(r, j)] == 0 || board[At(r, j)] == board[At(r, j + 1)] {
            assert RowSignal(g, r, j);
            return true;
          }
        }
      }
      for c := 0 to N
        invariant forall r', c' :: 0 <= r' < N - 1 && 0 <= c' < c ==> !ColumnSignal(g, r', c')
      {
        for j := 0 to N - 1
          invariant forall r', c' :: 0 <= r' < N - 1 && (0 <= c' < c || c' == c) && (c' < c || r' < j) ==>
            !ColumnSignal(g, r', c')
        {
          if board[At(j, c)] == 0 || board[At(j, c)] == board[At(j + 1, c)] {
            assert ColumnSignal(g, j, c);
            return true;
          }
        }
      }
      return false;
    }

    /** Lines 44-60 without the canvas: the returned flag says whether
        `game_over` was called. */
    method KeyPress(keysym: string, pick: nat, four: bool) returns (gameOver: bool)
      requires Valid()
      modifies this, board
      ensures Valid() && board == old(board)
      ensures board[..] == Press(old(board[..]), old(score), keysym, pick, four).board
      ensures score == Press(old(board[..]), old(score), keysym, pick, four).score
      ensures gameOver == Press(old(board[..]), old(score), keysym, pick, four).gameOver
      ensures TilesOnly(old(board[..])) ==> TilesOnly(board[..]) && score >= old(score)
    {
      ghost var g: Board := board[..];
      ghost var oldScore := score;
      if TilesOnly(g) {
        PressFromTiles(g, oldScore, keysym, pick, four);
      }
      gameOver := false;
      if keysym == "Up" {
        gameOver := PlayDirection(Up, pick, four);
      } else if keysym == "Down" {
        gameOver := PlayDirection(Down, pick, four);
      } else if keysym == "Left" {
        gameOver := PlayDirection(Left, pick, four);
      } else if keysym == "Right" {
        gameOver := PlayDirection(Right, pick, four);
      }
    }

    /** Lines 47-55: the move method of direction d. */
    method MoveTowards(d: Direction) returns (moved: bool)
      requires Valid()
      modifies this, board
      ensures Valid() && board == old(board)
      ensures board[..] == Step(old(board[..]), d).board
      ensures score == old(score) + Step(old(board[..]), d).gain
      ensures moved == Step(old(board[..]), d).moved
    {
      match d
      case Up => moved := MoveUp();
      case Down => moved := MoveDown();
      case Left => moved := MoveLeft();
      case Right => moved := MoveRight();
    }

    /** Lines 47-58: the move for direction d, then, if it reported a
        move, a new tile and the `can_move` scan. */
    method PlayDirection(d: Direction, pick: nat, four: bool) returns (gameOver: bool)
      requires Valid()
      modifies this, board
      ensures Valid() && board == old(board)
      ensures board[..] == Play(old(board[..]), old(score), d, pick, four).board
      ensures score == Play(old(board[..]), old(score), d, pick, four).score
      ensures gameOver == Play(old(board[..]), old(score), d, pick, four).gameOver
    {
      ghost var g: Board := board[..];
      ghost var o := Step(g, d);
      ghost var t := Play(g, score, d, pick, four);
      var moved := MoveTowards(d);
      gameOver := false;
      if moved {
        AddRandomTile(pick, four);
        ghost var b := board[..];
        assert b == Spawn(o.board, pick, four) == t.board;
        var canMove := CanMove();
        gameOver := !canMove;
        assert gameOver == !Grid.CanMove(b) == t.gameOver;
      } else {
        assert board[..] == o.board == t.board;
      }
    }
  }
}
