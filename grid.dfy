/** The 4x4 board of the 2048 engine and the NumPy views through which
    `Game2048.move` reads and writes it (project4.py, lines 62-107), as
    functions over the board's cells in row-major order. */
module Grid {
  import opened LineReducer

  /** `grid_size` (line 9). */
  const N: nat := 4

  /** The cells of a board, row after row, as NumPy stores a C-ordered
      `N x N` array. */
  type Board = g: seq<int> | |g| == N * N witness seq(N * N, _ => 0)

  /** The position of cell (r, c) in the row-major order. */
  function At(r: nat, c: nat): (k: nat)
    requires r < N && c < N
    ensures k < N * N
  {
    N * r + c
  }

  function Row(g: Board, r: nat): (row: seq<int>)
    requires r < N
    ensures |row| == N
    ensures forall c :: 0 <= c < N ==> row[c] == g[At(r, c)]
  {
    seq(N, c requires 0 <= c < N => g[At(r, c)])
  }

  /** Column c read from top to bottom. */
  function Column(g: Board, c: nat): (col: seq<int>)
    requires c < N
    ensures |col| == N
    ensures forall r :: 0 <= r < N ==> col[r] == g[At(r, c)]
  {
    seq(N, r requires 0 <= r < N => g[At(r, c)])
  }

  // ---------------------------------------------------------------------
  // Views
  // ---------------------------------------------------------------------

  /** A NumPy view of the board: `np.transpose`, `np.flipud` and
      `np.fliplr` return views, so writes through them land in the board. */
  datatype View = Base | Transpose(of: View) | FlipUD(of: View) | FlipLR(of: View)

  /** Every view of a square board is one of its eight symmetries:
      position (i, j) shows the cell obtained by optionally swapping the
      two indices and then optionally mirroring the row index and the
      column index. */
  datatype Symmetry = Symmetry(swap: bool, flipRows: bool, flipCols: bool)

  function Mirror(x: nat): nat
    requires x < N
  {
    N - 1 - x
  }

  /** The symmetry a view applies, composed one NumPy call at a time. */
  function SymmetryOf(v: View): Symmetry
  {
    match v
    case Base => Symmetry(false, false, false)
    case Transpose(x) =>
      var m := SymmetryOf(x);
      m.(swap := !m.swap)
    case FlipUD(x) =>
      var m := SymmetryOf(x);
      if m.swap then m.(flipCols := !m.flipCols) else m.(flipRows := !m.flipRows)
    case FlipLR(x) =>
      var m := SymmetryOf(x);
      if m.swap then m.(flipRows := !m.flipRows) else m.(flipCols := !m.flipCols)
  }

  /** The board cell (row, column) that position (i, j) of a view shows. */
  function Cell(v: View, i: nat, j: nat): (p: (nat, nat))
    requires i < N && j < N
    ensures p.0 < N && p.1 < N
  {
    var m := SymmetryOf(v);
    var a := if m.swap then j else i;
    var b := if m.swap then i else j;
    (if m.flipRows then Mirror(a) else a, if m.flipCols then Mirror(b) else b)
  }

  /** The position of a view that shows board cell (r, c): every view is
      a permutation of the cells. */
  function Position(v: View, r: nat, c: nat): (q: (nat, nat))
    requires r < N && c < N
    ensures q.0 < N && q.1 < N
    ensures Cell(v, q.0, q.1) == (r, c)
  {
    var m := SymmetryOf(v);
    var a := if m.flipRows then Mirror(r) else r;
    var b := if m.flipCols then Mirror(c) else c;
    if m.swap then (b, a) else (a, b)
  }

  function CellAt(v: View, i: nat, j: nat): (k: nat)
    requires i < N && j < N
    ensures k < N * N
  {
    var p := Cell(v, i, j);
    At(p.0, p.1)
  }

  /** Row i of a view, copied out of the board (`board[i].copy()`). */
  function ViewRow(g: Board, v: View, i: nat): (row: seq<int>)
    requires i < N
    ensures |row| == N
    ensures forall j :: 0 <= j < N ==> row[j] == g[CellAt(v, i, j)]
  {
    seq(N, j requires 0 <= j < N => g[CellAt(v, i, j)])
  }

  // ---------------------------------------------------------------------
  // `move`
  // ---------------------------------------------------------------------

  /** Lines 76-94: every row of view v is read, reduced and written back
      through the view. Rows of a view share no cell, so the cell that
      position (i, j) of the view shows ends up holding entry j of the
      reduction of view row i as it stood before the sweep. */
  function Swept(g: Board, v: View): Board
  {
    seq(N * N, k requires 0 <= k < N * N =>
      var q := Position(v, k / N, k % N);
      ReduceLine(ViewRow(g, v, q.0))[q.1])
  }

  /** Line 88 over the first i rows of view v: what the sweep adds to the
      score. */
  function RowsScore(g: Board, v: View, i: nat): int
    requires i <= N
  {
    if i == 0 then 0 else RowsScore(g, v, i - 1) + LineScore(ViewRow(g, v, i - 1))
  }

  /** Lines 96-97 over the first i rows of view v: some row reads
      differently once it has been reduced and written back. */
  predicate SomeRowChanges(g: Board, v: View, i: nat)
    requires i <= N
  {
    exists k :: 0 <= k < i && ReduceLine(ViewRow(g, v, k)) != ViewRow(g, v, k)
  }

  /** Lines 100-105: board row r is overwritten with row r of view w of
      the board. When row r of w shows only cells of board row r, as for
      every view `move` copies back, reading each row just before it is
      overwritten and reading them all first agree (NumPy copies a source
      that overlaps its destination). */
  function CopyBack(g: Board, w: View): Board
  {
    seq(N * N, k requires 0 <= k < N * N => g[CellAt(w, k / N, k % N)])
  }

  /** A view whose row i shows only cells of board row i. */
  predicate RowLocal(w: View)
  {
    forall i, j :: 0 <= i < N && 0 <= j < N ==> Cell(w, i, j).0 == i
  }

  /** Line 100: the view that is copied back. No local of `move` is named
      `up`, so the test on `co_varnames` is always false and the
      `np.transpose(np.flipud(board))` branch is the one taken. */
  function BackView(v: View, transposeBack: bool): View
  {
    if transposeBack then Transpose(FlipUD(v)) else v
  }

  /** What a call of `move` does: the new board, the score it adds and
      the flag it returns. */
  datatype Outcome = Outcome(board: Board, gain: int, moved: bool)

  /** `move(board, transpose_back)` (lines 74-107) on a board viewed
      through v. */
  function MoveOn(g: Board, v: View, transposeBack: bool): Outcome
  {
    Outcome(CopyBack(Swept(g, v), BackView(v, transposeBack)),
            RowsScore(g, v, N), SomeRowChanges(g, v, N))
  }

  datatype Direction = Up | Down | Left | Right

  /** Lines 62-72: the view each direction hands to `move`. */
  function ViewOf(d: Direction): View
  {
    match d
    case Up => Transpose(Base)
    case Down => FlipUD(Transpose(Base))
    case Left => Base
    case Right => FlipLR(Base)
  }

  function TransposeBack(d: Direction): bool
  {
    d == Up || d == Down
  }

  /** `move_up`, `move_down`, `move_left`, `move_right`. */
  function Step(g: Board, d: Direction): Outcome
  {
    MoveOn(g, ViewOf(d), TransposeBack(d))
  }

  // ---------------------------------------------------------------------
  // `add_random_tile` and `can_move`
  // ---------------------------------------------------------------------

  /** Line 39 from cell k on: the empty cells in row-major order, as
      `np.where` lists them. */
  function EmptyCellsFrom(g: seq<int>, k: nat): (e: seq<nat>)
    requires k <= |g|
    ensures forall p :: p in e <==> k <= p < |g| && g[p] == 0
    ensures forall a, b :: 0 <= a < b < |e| ==> e[a] < e[b]
    decreases |g| - k
  {
    if k == |g| then []
    else
      var rest := EmptyCellsFrom(g, k + 1);
      assert forall b :: 0 <= b < |rest| ==> rest[b] in rest;
      if g[k] == 0 then [k] + rest else rest
  }

  function EmptyCells(g: Board): (e: seq<nat>)
  {
    EmptyCellsFrom(g, 0)
  }

  /** Line 42: `random.choice([2, 4])`, the draw given as a flag. */
  function TileValue(four: bool): int
  {
    if four then 4 else 2
  }

  /** Lines 38-42. The draw of `random.choice(empty_tiles)` is given as
      `pick`, which selects the empty cell at `pick` modulo their number. */
  function Spawn(g: Board, pick: nat, four: bool): Board
  {
    var e := EmptyCells(g);
    if e == [] then g
    else
      var k := e[pick % |e|];
      assert k in e;
      g[k := TileValue(four)]
  }

  /** Lines 111-114: cell (r, c) with c < N - 1 makes the row scan yield. */
  predicate RowSignal(g: Board, r: nat, c: nat)
    requires r < N && c < N - 1
  {
    g[At(r, c)] == 0 || g[At(r, c)] == g[At(r, c + 1)]
  }

  /** Lines 116-119: cell (r, c) with r < N - 1 makes the column scan yield. */
  predicate ColumnSignal(g: Board, r: nat, c: nat)
    requires r < N - 1 && c < N
  {
    g[At(r, c)] == 0 || g[At(r, c)] == g[At(r + 1, c)]
  }

  /** `any(self.can_move())`: some pair yields True before the final False. */
  predicate CanMove(g: Board)
  {
    (exists r, c :: 0 <= r < N && 0 <= c < N - 1 && RowSignal(g, r, c)) ||
    (exists r, c :: 0 <= r < N - 1 && 0 <= c < N && ColumnSignal(g, r, c))
  }

  // ---------------------------------------------------------------------
  // Views are permutations of the cells
  // ---------------------------------------------------------------------

  /** `Cell` follows NumPy: position (i, j) of `np.transpose(x)` is
      position (j, i) of x, of `np.flipud(x)` position (N - 1 - i, j),
      and of `np.fliplr(x)` position (i, N - 1 - j). */
  lemma ViewsCompose(x: View, i: nat, j: nat)
    requires i < N && j < N
    ensures Cell(Base, i, j) == (i, j)
    ensures Cell(Transpose(x), i, j) == Cell(x, j, i)
    ensures Cell(FlipUD(x), i, j) == Cell(x, Mirror(i), j)
    ensures Cell(FlipLR(x), i, j) == Cell(x, i, Mirror(j))
  {
  }

  lemma PositionOfCell(v: View, i: nat, j: nat)
    requires i < N && j < N
    ensures Position(v, Cell(v, i, j).0, Cell(v, i, j).1) == (i, j)
  {
  }

  /** The row-major position of a cell gives back its row and column. */
  lemma AtInverse(r: nat, c: nat)
    requires r < N && c < N
    ensures At(r, c) / N == r && At(r, c) % N == c
  {
  }

  /** Two positions of a view show the same cell only if they are equal. */
  lemma CellInjective(v: View, i: nat, j: nat, i': nat, j': nat)
    requires i < N && j < N && i' < N && j' < N
    ensures CellAt(v, i, j) == CellAt(v, i', j') <==> i == i' && j == j'
  {
    PositionOfCell(v, i, j);
    PositionOfCell(v, i', j');
  }

  /** A board is determined by the rows of any one view of it. */
  lemma SameViewRows(a: Board, b: Board, v: View)
    requires forall i :: 0 <= i < N ==> ViewRow(a, v, i) == ViewRow(b, v, i)
    ensures a == b
  {
    forall k | 0 <= k < N * N ensures a[k] == b[k] {
      var r, c := k / N, k % N;
      assert k == At(r, c);
      var q := Position(v, r, c);
      assert ViewRow(a, v, q.0)[q.1] == ViewRow(b, v, q.0)[q.1];
    }
  }
}
