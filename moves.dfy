/** What `move_up`, `move_down`, `move_left` and `move_right` do to the
    board once the NumPy views of project4.py (lines 62-107) are traced
    through: the reoriented rows each direction reduces, the copy-back,
    the score and the `moved` flag. */
module Moves {
  import opened LineReducer
  import opened Grid

  // ---------------------------------------------------------------------
  // The sweep and the copy-back
  // ---------------------------------------------------------------------

  /** The cell that position (i, j) of view v shows holds entry j of the
      reduced view row i. */
  lemma SweptCell(g: Board, v: View, i: nat, j: nat)
    requires i < N && j < N
    ensures Swept(g, v)[CellAt(v, i, j)] == ReduceLine(ViewRow(g, v, i))[j]
  {
    var p := Cell(v, i, j);
    AtInverse(p.0, p.1);
    PositionOfCell(v, i, j);
  }

  /** `move` on a view: every row of the view is reduced. */
  lemma ViewRowOfSwept(g: Board, v: View, i: nat)
    requires i < N
    ensures ViewRow(Swept(g, v), v, i) == ReduceLine(ViewRow(g, v, i))
  {
    forall j | 0 <= j < N ensures ViewRow(Swept(g, v), v, i)[j] == ReduceLine(ViewRow(g, v, i))[j] {
      SweptCell(g, v, i, j);
    }
  }

  /** The copy-back gives board row r the contents of row r of view w. */
  lemma RowOfCopyBack(g: Board, w: View, r: nat)
    requires r < N
    ensures Row(CopyBack(g, w), r) == ViewRow(g, w, r)
  {
    forall c | 0 <= c < N ensures Row(CopyBack(g, w), r)[c] == ViewRow(g, w, r)[c] {
      AtInverse(r, c);
    }
  }

  /** Every cell is shown by the position `Position` names. */
  lemma CellAtPosition(v: View, k: nat)
    requires k < N * N
    ensures Position(v, k / N, k % N).0 < N && Position(v, k / N, k % N).1 < N
    ensures CellAt(v, Position(v, k / N, k % N).0, Position(v, k / N, k % N).1) == k
  {
  }

  /** A board whose every view position holds the reduced view row's
      entry is the swept board. */
  lemma SweptByCells(s: Board, g: Board, v: View)
    requires forall p, q :: 0 <= p < N && 0 <= q < N ==>
      s[CellAt(v, p, q)] == ReduceLine(ViewRow(g, v, p))[q]
    ensures s == Swept(g, v)
  {
    forall k | 0 <= k < N * N ensures s[k] == Swept(g, v)[k] {
      CellAtPosition(v, k);
    }
  }

  /** A board whose every row r holds row r of view w of g is the
      copy-back of g through w. */
  lemma CopyBackByRows(s: Board, g: Board, w: View)
    requires forall r, c :: 0 <= r < N && 0 <= c < N ==> s[At(r, c)] == g[CellAt(w, r, c)]
    ensures s == CopyBack(g, w)
  {
    var t := CopyBack(g, w);
    forall k | 0 <= k < N * N ensures s[k] == t[k] {
      var r, c := k / N, k % N;
      assert k == At(r, c);
      assert t[k] == g[CellAt(w, r, c)];
    }
    assert |s| == |t|;
  }

  /** One more row of the sweep: the score adds that row's, and the flag
      is raised if that row changes. */
  lemma SomeRowChangesStep(g: Board, v: View, i: nat)
    requires i < N
    ensures SomeRowChanges(g, v, i + 1) <==>
      SomeRowChanges(g, v, i) || ReduceLine(ViewRow(g, v, i)) != ViewRow(g, v, i)
  {
    if SomeRowChanges(g, v, i + 1) && ReduceLine(ViewRow(g, v, i)) == ViewRow(g, v, i) {
      var k :| 0 <= k < i + 1 && ReduceLine(ViewRow(g, v, k)) != ViewRow(g, v, k);
      assert k < i;
    }
  }

  /** The view each direction copies back shows, in row r, only cells of
      board row r. */
  lemma BackViewRowLocal(d: Direction)
    ensures RowLocal(BackView(ViewOf(d), TransposeBack(d)))
  {
    forall i, j | 0 <= i < N && 0 <= j < N
      ensures Cell(BackView(ViewOf(d), TransposeBack(d)), i, j).0 == i
    {
      if d == Up {
        UpBackView(i, j);
      } else if d == Down {
        DownBackView(i, j);
      }
    }
  }

  lemma BaseRows(g: Board, r: nat)
    requires r < N
    ensures ViewRow(g, Base, r) == Row(g, r)
  {
  }

  /** Boards with equal rows are equal. */
  lemma SameRows(a: Board, b: Board)
    requires forall r :: 0 <= r < N ==> Row(a, r) == Row(b, r)
    ensures a == b
  {
    forall r | 0 <= r < N ensures ViewRow(a, Base, r) == ViewRow(b, Base, r) {
      BaseRows(a, r);
      BaseRows(b, r);
    }
    SameViewRows(a, b, Base);
  }

  /** Boards with equal columns are equal. */
  lemma SameColumns(a: Board, b: Board)
    requires forall c :: 0 <= c < N ==> Column(a, c) == Column(b, c)
    ensures a == b
  {
    forall r | 0 <= r < N ensures Row(a, r) == Row(b, r) {
      forall c | 0 <= c < N ensures Row(a, r)[c] == Row(b, r)[c] {
        assert Column(a, c)[r] == Column(b, c)[r];
      }
    }
    SameRows(a, b);
  }

  // ---------------------------------------------------------------------
  // The four directions as index maps
  // ---------------------------------------------------------------------

  /** Row k of the view each direction reduces: Left reduces the rows,
      Right the reversed rows, Up the columns from the top, and Down the
      columns from the top too, taken from the rightmost one. */
  lemma ReorientedRow(g: Board, d: Direction, k: nat)
    requires k < N
    ensures ViewRow(g, ViewOf(d), k) ==
      match d
      case Left => Row(g, k)
      case Right => Reverse(Row(g, k))
      case Up => Column(g, k)
      case Down => Column(g, N - 1 - k)
  {
    match d
    case Left => BaseRows(g, k);
    case Right => RightRow(g, k);
    case Up => UpRow(g, k);
    case Down => DownRow(g, N - 1 - k);
  }

  lemma RightRow(g: Board, r: nat)
    requires r < N
    ensures ViewRow(g, ViewOf(Right), r) == Reverse(Row(g, r))
  {
  }

  lemma UpRow(g: Board, c: nat)
    requires c < N
    ensures ViewRow(g, ViewOf(Up), c) == Column(g, c)
  {
  }

  lemma DownRow(g: Board, c: nat)
    requires c < N
    ensures ViewRow(g, ViewOf(Down), N - 1 - c) == Column(g, c)
  {
  }

  /** The view copied back by Up, `transpose(flipud(transpose(board)))`,
      is the board mirrored left to right. */
  lemma UpBackView(i: nat, j: nat)
    requires i < N && j < N
    ensures Cell(BackView(ViewOf(Up), TransposeBack(Up)), i, j) == (i, N - 1 - j)
  {
    assert Cell(Transpose(FlipUD(Transpose(Base))), i, j) == Cell(FlipUD(Transpose(Base)), j, i);
    assert Cell(FlipUD(Transpose(Base)), j, i) == Cell(Transpose(Base), N - 1 - j, i);
  }

  /** The view copied back by Down,
      `transpose(flipud(flipud(transpose(board))))`, is the board itself. */
  lemma DownBackView(i: nat, j: nat)
    requires i < N && j < N
    ensures Cell(BackView(ViewOf(Down), TransposeBack(Down)), i, j) == (i, j)
  {
    assert Cell(Transpose(FlipUD(FlipUD(Transpose(Base)))), i, j) == Cell(FlipUD(FlipUD(Transpose(Base))), j, i);
    assert Cell(FlipUD(FlipUD(Transpose(Base))), j, i) == Cell(FlipUD(Transpose(Base)), N - 1 - j, i);
    assert Cell(FlipUD(Transpose(Base)), N - 1 - j, i) == Cell(Transpose(Base), j, i);
  }

  /** Left: each row is reduced toward its start. */
  lemma LeftMove(g: Board)
    ensures forall r :: 0 <= r < N ==> Row(Step(g, Left).board, r) == ReduceLine(Row(g, r))
  {
    var s := Swept(g, Base);
    assert Step(g, Left).board == CopyBack(s, Base);
    forall r | 0 <= r < N ensures Row(Step(g, Left).board, r) == ReduceLine(Row(g, r)) {
      RowOfCopyBack(s, Base, r);
      ViewRowOfSwept(g, Base, r);
      BaseRows(s, r);
      BaseRows(g, r);
    }
  }

  /** Right: because lines 104-105 copy the `fliplr` view back over the
      board, each row becomes the reduction of its own reversal. */
  lemma RightMove(g: Board)
    ensures forall r :: 0 <= r < N ==>
      Row(Step(g, Right).board, r) == ReduceLine(Reverse(Row(g, r)))
  {
    var v := FlipLR(Base);
    forall r | 0 <= r < N ensures Row(Step(g, Right).board, r) == ReduceLine(Reverse(Row(g, r))) {
      RowOfCopyBack(Swept(g, v), v, r);
      ViewRowOfSwept(g, v, r);
      RightRow(g, r);
    }
  }

  /** The sweep of Down reduces every column toward the top. */
  lemma DownColumn(g: Board, c: nat)
    requires c < N
    ensures Column(Swept(g, ViewOf(Down)), c) == ReduceLine(Column(g, c))
  {
    ViewRowOfSwept(g, ViewOf(Down), N - 1 - c);
    ReducedColumn(Swept(g, ViewOf(Down)), g, c);
  }

  lemma ReducedColumn(s: Board, g: Board, c: nat)
    requires c < N
    requires ViewRow(s, ViewOf(Down), N - 1 - c) == ReduceLine(ViewRow(g, ViewOf(Down), N - 1 - c))
    ensures Column(s, c) == ReduceLine(Column(g, c))
  {
    DownRow(s, c);
    DownRow(g, c);
  }

  lemma DownSweep(g: Board)
    ensures forall c :: 0 <= c < N ==>
      Column(Swept(g, ViewOf(Down)), c) == ReduceLine(Column(g, c))
  {
    forall c | 0 <= c < N ensures Column(Swept(g, ViewOf(Down)), c) == ReduceLine(Column(g, c)) {
      DownColumn(g, c);
    }
  }

  /** The sweeps of Up and Down leave the same board. */
  lemma UpSweep(g: Board)
    ensures Swept(g, ViewOf(Up)) == Swept(g, ViewOf(Down))
  {
    var s := Swept(g, ViewOf(Up));
    DownSweep(g);
    forall c | 0 <= c < N ensures Column(s, c) == Column(Swept(g, ViewOf(Down)), c) {
      ViewRowOfSwept(g, ViewOf(Up), c);
      UpRow(s, c);
      UpRow(g, c);
    }
    SameColumns(s, Swept(g, ViewOf(Down)));
  }

  /** Down (line 66): the rows of `flipud(transpose(board))` are the
      columns read from the top, so every column is reduced toward the
      top, and the copy-back of lines 101-102 leaves the board as it is. */
  lemma DownMove(g: Board)
    ensures Step(g, Down).board == Swept(g, ViewOf(Down))
    ensures forall c :: 0 <= c < N ==> Column(Step(g, Down).board, c) == ReduceLine(Column(g, c))
  {
    var w := BackView(ViewOf(Down), TransposeBack(Down));
    var s := Swept(g, ViewOf(Down));
    forall r | 0 <= r < N ensures Row(Step(g, Down).board, r) == Row(s, r) {
      RowOfCopyBack(s, w, r);
      forall j | 0 <= j < N ensures ViewRow(s, w, r)[j] == Row(s, r)[j] {
        DownBackView(r, j);
      }
    }
    SameRows(Step(g, Down).board, s);
    DownSweep(g);
  }

  /** The copy-back of Up gives each row its own reversal. */
  lemma UpCopyBack(s: Board, r: nat)
    requires r < N
    ensures Row(CopyBack(s, BackView(ViewOf(Up), TransposeBack(Up))), r) == Reverse(Row(s, r))
  {
    var w := BackView(ViewOf(Up), TransposeBack(Up));
    RowOfCopyBack(s, w, r);
    forall j | 0 <= j < N ensures ViewRow(s, w, r)[j] == Reverse(Row(s, r))[j] {
      UpBackView(r, j);
    }
  }

  /** Up: the columns are reduced toward the top as for Down, and then
      lines 100-102 copy back the board mirrored left to right. */
  lemma UpMove(g: Board)
    ensures forall r :: 0 <= r < N ==>
      Row(Step(g, Up).board, r) == Reverse(Row(Step(g, Down).board, r))
  {
    var s := Swept(g, ViewOf(Up));
    UpSweep(g);
    DownMove(g);
    assert Step(g, Down).board == s;
    assert Step(g, Up).board == CopyBack(s, BackView(ViewOf(Up), TransposeBack(Up)));
    forall r | 0 <= r < N ensures Row(Step(g, Up).board, r) == Reverse(Row(s, r)) {
      UpCopyBack(s, r);
    }
  }

  /** Board row r holding `line` puts entry c of `line` in cell (r, c). */
  lemma CellOfRow(b: Board, r: nat, c: nat, line: seq<int>)
    requires r < N && c < N && Row(b, r) == line
    ensures b[At(r, c)] == line[c]
  {
  }

  /** Board column c holding `line` puts entry r of `line` in cell (r, c). */
  lemma CellOfColumn(b: Board, r: nat, c: nat, line: seq<int>)
    requires r < N && c < N && Column(b, c) == line
    ensures b[At(r, c)] == line[r]
  {
  }

  /** Board row r of `a` being row r of `b` reversed puts cell (r, c) of
      `a` in cell (r, N - 1 - c) of `b`. */
  lemma MirroredCell(a: Board, b: Board, r: nat, c: nat)
    requires r < N && c < N && Row(a, r) == Reverse(Row(b, r))
    ensures a[At(r, c)] == b[At(r, N - 1 - c)]
  {
    assert Row(a, r)[c] == Row(b, r)[N - 1 - c];
  }

  lemma LeftCell(g: Board, r: nat, c: nat)
    requires r < N && c < N
    ensures Step(g, Left).board[At(r, c)] == ReduceLine(Row(g, r))[c]
  {
    LeftMove(g);
    CellOfRow(Step(g, Left).board, r, c, ReduceLine(Row(g, r)));
  }

  lemma RightCell(g: Board, r: nat, c: nat)
    requires r < N && c < N
    ensures Step(g, Right).board[At(r, c)] == ReduceLine(Reverse(Row(g, r)))[c]
  {
    RightMove(g);
    CellOfRow(Step(g, Right).board, r, c, ReduceLine(Reverse(Row(g, r))));
  }

  lemma DownCell(g: Board, r: nat, c: nat)
    requires r < N && c < N
    ensures Step(g, Down).board[At(r, c)] == ReduceLine(Column(g, c))[r]
  {
    DownMoveColumn(g, c);
    CellOfColumn(Step(g, Down).board, r, c, ReduceLine(Column(g, c)));
  }

  lemma DownMoveColumn(g: Board, c: nat)
    requires c < N
    ensures Column(Step(g, Down).board, c) == ReduceLine(Column(g, c))
  {
    DownMove(g);
  }

  /** Up reads column N - 1 - c into cell (r, c): the sweep reduces
      column N - 1 - c into view row N - 1 - c, and the copy-back shows
      board cell (r, N - 1 - c) at (r, c). */
  lemma UpCell(g: Board, r: nat, c: nat)
    requires r < N && c < N
    ensures Step(g, Up).board[At(r, c)] == ReduceLine(Column(g, N - 1 - c))[r]
  {
    var v := ViewOf(Up);
    var w := BackView(v, TransposeBack(Up));
    var s := Swept(g, v);
    var m := N - 1 - c;
    StepBoard(g, Up);
    CopyBackCell(s, w, r, c);
    UpBackView(r, c);
    assert CellAt(w, r, c) == At(r, m);
    assert CellAt(v, m, r) == At(r, m);
    SweptCell(g, v, m, r);
    UpRow(g, m);
  }

  /** A move's board is the copy-back of the swept board. */
  lemma StepBoard(g: Board, d: Direction)
    ensures Step(g, d).board == CopyBack(Swept(g, ViewOf(d)), BackView(ViewOf(d), TransposeBack(d)))
  {
  }

  /** Cell (r, c) of a copy-back through w is the cell w shows at (r, c). */
  lemma CopyBackCell(s: Board, w: View, r: nat, c: nat)
    requires r < N && c < N
    ensures CopyBack(s, w)[At(r, c)] == s[CellAt(w, r, c)]
  {
    AtInverse(r, c);
  }

  /** Where each key puts the content of cell (r, c), in closed form:
      Left and Right read board row r, Up and Down read a column, and Up
      and Right read theirs mirrored. */
  lemma StepCell(g: Board, d: Direction, r: nat, c: nat)
    requires r < N && c < N
    ensures Step(g, d).board[At(r, c)] ==
      match d
      case Left => ReduceLine(Row(g, r))[c]
      case Right => ReduceLine(Reverse(Row(g, r)))[c]
      case Down => ReduceLine(Column(g, c))[r]
      case Up => ReduceLine(Column(g, N - 1 - c))[r]
  {
    match d
    case Left => LeftCell(g, r, c);
    case Right => RightCell(g, r, c);
    case Down => DownCell(g, r, c);
    case Up => UpCell(g, r, c);
  }

  // ---------------------------------------------------------------------
  // Empty cells after a move
  // ---------------------------------------------------------------------

  /** Every cell of a board shows up somewhere in a copy-back through any
      view. */
  lemma CopyBackShows(s: Board, w: View, x: nat)
    requires x < N * N
    ensures exists k :: 0 <= k < N * N && CopyBack(s, w)[k] == s[x]
  {
    var r, c := x / N, x % N;
    assert x == At(r, c);
    var q := Position(w, r, c);
    var k := At(q.0, q.1);
    AtInverse(q.0, q.1);
    assert CopyBack(s, w)[k] == s[CellAt(w, q.0, q.1)];
  }

  /** A move that reports a change leaves an empty cell: the changed row
      ends in one, and the copy-back only rearranges cells. */
  lemma MovedLeavesGap(g: Board, d: Direction)
    requires Step(g, d).moved
    ensures exists k :: 0 <= k < N * N && Step(g, d).board[k] == 0
  {
    var v := ViewOf(d);
    var i :| 0 <= i < N && ReduceLine(ViewRow(g, v, i)) != ViewRow(g, v, i);
    var row := ViewRow(g, v, i);
    ChangedLineHasGap(row);
    var s := Swept(g, v);
    SweptCell(g, v, i, N - 1);
    var x := CellAt(v, i, N - 1);
    assert s[x] == 0;
    CopyBackShows(s, BackView(v, TransposeBack(d)), x);
  }

  // ---------------------------------------------------------------------
  // Score and `moved`
  // ---------------------------------------------------------------------

  /** The score of a move is the sum of the scores of its four rows. */
  lemma RowsScoreAll(g: Board, v: View)
    ensures RowsScore(g, v, N) ==
      LineScore(ViewRow(g, v, 0)) + LineScore(ViewRow(g, v, 1)) +
      LineScore(ViewRow(g, v, 2)) + LineScore(ViewRow(g, v, 3))
  {
    assert RowsScore(g, v, 1) == LineScore(ViewRow(g, v, 0));
    assert RowsScore(g, v, 2) == RowsScore(g, v, 1) + LineScore(ViewRow(g, v, 1));
    assert RowsScore(g, v, 3) == RowsScore(g, v, 2) + LineScore(ViewRow(g, v, 2));
  }

  /** Row k of the view of Up is row N - 1 - k of the view of Down. */
  lemma UpDownRows(g: Board, k: nat)
    requires k < N
    ensures ViewRow(g, ViewOf(Up), k) == ViewRow(g, ViewOf(Down), N - 1 - k)
  {
    UpRow(g, k);
    DownRow(g, k);
  }

  /** Up and Down reduce the same lines, so they score the same... */
  lemma UpDownGain(g: Board)
    ensures Step(g, Up).gain == Step(g, Down).gain
  {
    var a, b := ViewOf(Up), ViewOf(Down);
    RowsScoreAll(g, a);
    RowsScoreAll(g, b);
    UpDownRows(g, 0);
    UpDownRows(g, 1);
    UpDownRows(g, 2);
    UpDownRows(g, 3);
  }

  /** ... and report `moved` alike. */
  lemma UpDownMoved(g: Board)
    ensures Step(g, Up).moved <==> Step(g, Down).moved
  {
    UpChangesDown(g);
    DownChangesUp(g);
  }

  lemma UpChangesDown(g: Board)
    ensures SomeRowChanges(g, ViewOf(Up), N) ==> SomeRowChanges(g, ViewOf(Down), N)
  {
    var a, b := ViewOf(Up), ViewOf(Down);
    if SomeRowChanges(g, a, N) {
      var k :| 0 <= k < N && ReduceLine(ViewRow(g, a, k)) != ViewRow(g, a, k);
      UpDownRows(g, k);
      var m := N - 1 - k;
      assert ReduceLine(ViewRow(g, b, m)) != ViewRow(g, b, m);
    }
  }

  lemma DownChangesUp(g: Board)
    ensures SomeRowChanges(g, ViewOf(Down), N) ==> SomeRowChanges(g, ViewOf(Up), N)
  {
    var a, b := ViewOf(Up), ViewOf(Down);
    if SomeRowChanges(g, b, N) {
      var k :| 0 <= k < N && ReduceLine(ViewRow(g, b, k)) != ViewRow(g, b, k);
      var m := N - 1 - k;
      UpDownRows(g, m);
      assert ReduceLine(ViewRow(g, a, m)) != ViewRow(g, a, m);
    }
  }

  /** When no row of the first i changes, none of them scores. */
  lemma {:induction false} UnchangedRowsScoreNothing(g: Board, v: View, i: nat)
    requires i <= N && !SomeRowChanges(g, v, i)
    ensures RowsScore(g, v, i) == 0
  {
    if i > 0 {
      var last := i - 1;
      var row := ViewRow(g, v, last);
      SomeRowChangesStep(g, v, last);
      UnchangedRowsScoreNothing(g, v, last);
      UnchangedLineScoresNothing(row);
      assert RowsScore(g, v, i) == RowsScore(g, v, last) + LineScore(row);
    }
  }

  /** A move that reports no change scores nothing. */
  lemma UnmovedScoresNothing(g: Board, d: Direction)
    ensures !Step(g, d).moved ==> Step(g, d).gain == 0
  {
    if !Step(g, d).moved {
      UnchangedRowsScoreNothing(g, ViewOf(d), N);
    }
  }

  /** On a board without negative cells no move lowers the score. */
  lemma {:induction false} RowsScoreNonNegative(g: Board, v: View, i: nat)
    requires i <= N && NonNegative(g)
    ensures RowsScore(g, v, i) >= 0
  {
    if i > 0 {
      RowsScoreNonNegative(g, v, i - 1);
      LineScoreBounds(ViewRow(g, v, i - 1));
    }
  }

  lemma GainNonNegative(g: Board, d: Direction)
    requires NonNegative(g)
    ensures Step(g, d).gain >= 0
  {
    RowsScoreNonNegative(g, ViewOf(d), N);
  }

  /** Left reports `moved` exactly when the board changes; when it does
      not, the board and the score stay as they were. */
  lemma LeftMovedIff(g: Board)
    ensures Step(g, Left).moved <==> Step(g, Left).board != g
    ensures !Step(g, Left).moved ==> Step(g, Left).board == g && Step(g, Left).gain == 0
  {
    var h := Step(g, Left).board;
    LeftMove(g);
    UnmovedScoresNothing(g, Left);
    if Step(g, Left).moved {
      var k :| 0 <= k < N && ReduceLine(ViewRow(g, Base, k)) != ViewRow(g, Base, k);
      BaseRows(g, k);
      assert Row(h, k) != Row(g, k);
    } else {
      forall r | 0 <= r < N ensures Row(h, r) == Row(g, r) {
        BaseRows(g, r);
      }
      SameRows(h, g);
    }
  }

  /** Down, too, reports `moved` exactly when the board changes. */
  lemma DownMovedIff(g: Board)
    ensures Step(g, Down).moved <==> Step(g, Down).board != g
    ensures !Step(g, Down).moved ==> Step(g, Down).board == g && Step(g, Down).gain == 0
  {
    DownMove(g);
    UnmovedScoresNothing(g, Down);
    DownChangesBoard(g);
    DownKeepsBoard(g);
  }

  lemma DownChangesBoard(g: Board)
    ensures SomeRowChanges(g, ViewOf(Down), N) ==> Swept(g, ViewOf(Down)) != g
  {
    var v := ViewOf(Down);
    if SomeRowChanges(g, v, N) {
      var k :| 0 <= k < N && ReduceLine(ViewRow(g, v, k)) != ViewRow(g, v, k);
      ViewRowOfSwept(g, v, k);
    }
  }

  lemma DownKeepsBoard(g: Board)
    ensures !SomeRowChanges(g, ViewOf(Down), N) ==> Swept(g, ViewOf(Down)) == g
  {
    var v := ViewOf(Down);
    if !SomeRowChanges(g, v, N) {
      forall i | 0 <= i < N ensures ViewRow(Swept(g, v), v, i) == ViewRow(g, v, i) {
        ViewRowOfSwept(g, v, i);
      }
      SameViewRows(Swept(g, v), g, v);
    }
  }

  // ---------------------------------------------------------------------
  // Tiles
  // ---------------------------------------------------------------------

  lemma ViewRowTiles(g: Board, v: View, i: nat)
    requires i < N && TilesOnly(g)
    ensures TilesOnly(ViewRow(g, v, i))
  {
  }

  /** A move turns a board of tiles and empty cells into another. */
  lemma StepKeepsTiles(g: Board, d: Direction)
    requires TilesOnly(g)
    ensures TilesOnly(Step(g, d).board)
  {
    var v := ViewOf(d);
    var s := Swept(g, v);
    forall k | 0 <= k < N * N ensures s[k] == 0 || IsTile(s[k]) {
      var q := Position(v, k / N, k % N);
      ViewRowTiles(g, v, q.0);
      ReduceLineKeepsTiles(ViewRow(g, v, q.0));
    }
  }
}
