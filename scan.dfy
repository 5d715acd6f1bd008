/** What `can_move` (project4.py, lines 109-120) detects, and how that
    relates to the moves the four keys make. */
module Scan {
  import opened LineReducer
  import opened Grid
  import opened Moves

  /** Some horizontally or vertically adjacent pair of cells is equal. */
  predicate EqualNeighbours(g: Board)
  {
    (exists r, c :: 0 <= r < N && 0 <= c < N - 1 && g[At(r, c)] == g[At(r, c + 1)]) ||
    (exists r, c :: 0 <= r < N - 1 && 0 <= c < N && g[At(r, c)] == g[At(r + 1, c)])
  }

  /** Some cell before the bottom-right corner, in row-major order, is
      empty. */
  predicate GapBeforeCorner(g: Board)
  {
    exists k :: 0 <= k < N * N - 1 && g[k] == 0
  }

  /** `any(can_move())` holds exactly when two neighbours are equal or a
      cell other than the bottom-right corner is empty: both scans stop
      one cell short of the end of a line, so an empty corner whose
      neighbours differ from each other is never looked at. */
  lemma CanMoveIff(g: Board)
    ensures CanMove(g) <==> GapBeforeCorner(g) || EqualNeighbours(g)
  {
    if GapBeforeCorner(g) {
      var k :| 0 <= k < N * N - 1 && g[k] == 0;
      var r, c := k / N, k % N;
      assert k == At(r, c);
      if c < N - 1 {
        assert RowSignal(g, r, c);
      } else {
        assert ColumnSignal(g, r, c);
      }
    }
    if exists r, c :: 0 <= r < N && 0 <= c < N - 1 && RowSignal(g, r, c) {
      var r, c :| 0 <= r < N && 0 <= c < N - 1 && RowSignal(g, r, c);
      if g[At(r, c)] == 0 {
        assert GapBeforeCorner(g);
      } else {
        assert EqualNeighbours(g);
      }
    }
    if exists r, c :: 0 <= r < N - 1 && 0 <= c < N && ColumnSignal(g, r, c) {
      var r, c :| 0 <= r < N - 1 && 0 <= c < N && ColumnSignal(g, r, c);
      if g[At(r, c)] == 0 {
        assert GapBeforeCorner(g);
      } else {
        assert EqualNeighbours(g);
      }
    }
    if exists r, c :: 0 <= r < N && 0 <= c < N - 1 && g[At(r, c)] == g[At(r, c + 1)] {
      var r, c :| 0 <= r < N && 0 <= c < N - 1 && g[At(r, c)] == g[At(r, c + 1)];
      assert RowSignal(g, r, c);
    }
    if exists r, c :: 0 <= r < N - 1 && 0 <= c < N && g[At(r, c)] == g[At(r + 1, c)] {
      var r, c :| 0 <= r < N - 1 && 0 <= c < N && g[At(r, c)] == g[At(r + 1, c)];
      assert ColumnSignal(g, r, c);
    }
  }

  /** A board with no empty cell and no equal neighbours. */
  predicate Locked(g: Board)
  {
    (forall k :: 0 <= k < N * N ==> g[k] != 0) && !EqualNeighbours(g)
  }

  /** `can_move` reports no move exactly on locked boards, provided the
      bottom-right corner holds a tile. */
  lemma NoMoveIsLocked(g: Board)
    requires g[At(N - 1, N - 1)] != 0
    ensures !CanMove(g) <==> Locked(g)
  {
    CanMoveIff(g);
    if !GapBeforeCorner(g) {
      forall k | 0 <= k < N * N ensures g[k] != 0 {
        if k < N * N - 1 {
          assert !(g[k] == 0);
        }
      }
    }
  }

  /** Every line of a locked board is full and has no equal neighbours. */
  lemma LockedRow(g: Board, r: nat)
    requires r < N && Locked(g)
    ensures forall c :: 0 <= c < N ==> Row(g, r)[c] != 0
    ensures NoAdjacentEqual(Row(g, r))
  {
    forall c | 0 <= c < N - 1 ensures Row(g, r)[c] != Row(g, r)[c + 1] {
      assert !(g[At(r, c)] == g[At(r, c + 1)]);
    }
  }

  lemma LockedColumn(g: Board, c: nat)
    requires c < N && Locked(g)
    ensures forall r :: 0 <= r < N ==> Column(g, c)[r] != 0
    ensures NoAdjacentEqual(Column(g, c))
  {
    forall r | 0 <= r < N - 1 ensures Column(g, c)[r] != Column(g, c)[r + 1] {
      assert !(g[At(r, c)] == g[At(r + 1, c)]);
    }
  }

  /** A full line without equal neighbours stays as it is, and so does
      its reversal. */
  lemma LockedLineStays(line: seq<int>)
    requires forall k :: 0 <= k < |line| ==> line[k] != 0
    requires NoAdjacentEqual(line)
    ensures ReduceLine(line) == line
    ensures ReduceLine(Reverse(line)) == Reverse(line)
  {
    FullLineFixpoint(line);
    var rev := Reverse(line);
    forall k | 0 <= k < |rev| - 1 ensures rev[k] != rev[k + 1] {
      assert line[|line| - 1 - k] != line[|line| - 1 - (k + 1)];
    }
    FullLineFixpoint(rev);
  }

  /** No row of any direction's view of a locked board changes. */
  lemma LockedViewRow(g: Board, d: Direction, k: nat)
    requires k < N && Locked(g)
    ensures ReduceLine(ViewRow(g, ViewOf(d), k)) == ViewRow(g, ViewOf(d), k)
  {
    match d
    case Left =>
      BaseRows(g, k);
      LockedRow(g, k);
      LockedLineStays(Row(g, k));
    case Right =>
      RightRow(g, k);
      LockedRow(g, k);
      LockedLineStays(Row(g, k));
    case Up =>
      UpRow(g, k);
      LockedColumn(g, k);
      LockedLineStays(Column(g, k));
    case Down =>
      DownRow(g, N - 1 - k);
      LockedColumn(g, N - 1 - k);
      LockedLineStays(Column(g, N - 1 - k));
  }

  /** When `can_move` reports nothing and the corner is filled, no key
      moves anything, so declaring the game over (line 57) is sound. */
  lemma GameOverSound(g: Board, d: Direction)
    requires !CanMove(g) && g[At(N - 1, N - 1)] != 0
    ensures !Step(g, d).moved
  {
    NoMoveIsLocked(g);
    forall k | 0 <= k < N
      ensures ReduceLine(ViewRow(g, ViewOf(d), k)) == ViewRow(g, ViewOf(d), k)
    {
      LockedViewRow(g, d, k);
    }
  }

  /** On a board with no empty cell, `can_move` reports a move exactly
      when Left or Down would move something. */
  lemma FullBoardCanMove(g: Board)
    requires forall k :: 0 <= k < N * N ==> g[k] != 0
    ensures CanMove(g) <==> Step(g, Left).moved || Step(g, Down).moved
  {
    CanMoveIff(g);
    if CanMove(g) {
      if exists r, c :: 0 <= r < N && 0 <= c < N - 1 && g[At(r, c)] == g[At(r, c + 1)] {
        var r, c :| 0 <= r < N && 0 <= c < N - 1 && g[At(r, c)] == g[At(r, c + 1)];
        EqualPairMovesLeft(g, r, c);
      } else {
        var r, c :| 0 <= r < N - 1 && 0 <= c < N && g[At(r, c)] == g[At(r + 1, c)];
        EqualPairMovesDown(g, r, c);
      }
    } else {
      GameOverSound(g, Left);
      GameOverSound(g, Down);
    }
  }

  /** Two equal tiles side by side make Left move. */
  lemma EqualPairMovesLeft(g: Board, r: nat, c: nat)
    requires forall k :: 0 <= k < N * N ==> g[k] != 0
    requires r < N && c < N - 1 && g[At(r, c)] == g[At(r, c + 1)]
    ensures Step(g, Left).moved
  {
    var row := Row(g, r);
    assert row[c] == row[c + 1];
    FullLineFixpoint(row);
    BaseRows(g, r);
    assert ReduceLine(ViewRow(g, Base, r)) != ViewRow(g, Base, r);
  }

  /** Two equal tiles one above the other make Down move. */
  lemma EqualPairMovesDown(g: Board, r: nat, c: nat)
    requires forall k :: 0 <= k < N * N ==> g[k] != 0
    requires r < N - 1 && c < N && g[At(r, c)] == g[At(r + 1, c)]
    ensures Step(g, Down).moved
  {
    var col := Column(g, c);
    assert col[r] == col[r + 1];
    FullLineFixpoint(col);
    DownRow(g, c);
    var m := N - 1 - c;
    assert ReduceLine(ViewRow(g, ViewOf(Down), m)) != ViewRow(g, ViewOf(Down), m);
  }
}
