/** Behaviours of project4.py that follow from the way `move` copies its
    views back (lines 99-105) and from the bounds of the `can_move` scans
    (lines 109-120): the Up and Right keys mirror the board they reduce,
    `moved` describes the reoriented rows rather than the board, and an
    empty bottom-right corner goes unnoticed. */
module Quirks {
  import opened LineReducer
  import opened Grid
  import opened Moves
  import opened Scan

  /** A line of four cells is never its own reversal when no two
      neighbours are equal. */
  lemma LockedLineNotPalindrome(line: seq<int>)
    requires |line| == N && NoAdjacentEqual(line)
    ensures Reverse(line) != line
  {
    assert line[1] != line[2];
    assert Reverse(line)[1] == line[2];
  }

  /** On a locked board Up reports no move, yet every row comes back
      reversed, so the board changes. */
  lemma UpMirrorsLockedBoard(g: Board)
    requires Locked(g)
    ensures !Step(g, Up).moved
    ensures forall r :: 0 <= r < N ==> Row(Step(g, Up).board, r) == Reverse(Row(g, r))
    ensures Step(g, Up).board != g
  {
    forall k | 0 <= k < N
      ensures ReduceLine(ViewRow(g, ViewOf(Up), k)) == ViewRow(g, ViewOf(Up), k)
    {
      LockedViewRow(g, Up, k);
    }
    assert !Step(g, Down).moved by {
      forall k | 0 <= k < N
        ensures ReduceLine(ViewRow(g, ViewOf(Down), k)) == ViewRow(g, ViewOf(Down), k)
      {
        LockedViewRow(g, Down, k);
      }
    }
    DownMovedIff(g);
    UpMove(g);
    LockedRow(g, 0);
    LockedLineNotPalindrome(Row(g, 0));
    assert Row(Step(g, Up).board, 0) != Row(g, 0);
  }

  /** On a locked board Right reports no move, yet every row comes back
      reversed. */
  lemma RightMirrorsLockedBoard(g: Board)
    requires Locked(g)
    ensures !Step(g, Right).moved
    ensures forall r :: 0 <= r < N ==> Row(Step(g, Right).board, r) == Reverse(Row(g, r))
    ensures Step(g, Right).board != g
  {
    forall k | 0 <= k < N
      ensures ReduceLine(ViewRow(g, ViewOf(Right), k)) == ViewRow(g, ViewOf(Right), k)
    {
      LockedViewRow(g, Right, k);
    }
    RightMove(g);
    forall r | 0 <= r < N ensures Row(Step(g, Right).board, r) == Reverse(Row(g, r)) {
      LockedRow(g, r);
      LockedLineStays(Row(g, r));
    }
    LockedRow(g, 0);
    LockedLineNotPalindrome(Row(g, 0));
    assert Row(Step(g, Right).board, 0) != Row(g, 0);
  }

  /** A line with an empty cell before a tile is changed by the
      reduction. */
  lemma GapBeforeTileChanges(line: seq<int>, i: nat, j: nat)
    requires i < j < |line| && line[i] == 0 && line[j] != 0
    ensures ReduceLine(line) != line
  {
    ReduceLineShape(line);
  }

  /** A lone tile at the end of a line slides to its start. */
  lemma LoneTileSlides()
    ensures ReduceLine([0, 0, 0, 2]) == [2, 0, 0, 0]
  {
    assert [0, 0, 0, 2][1..] == [0, 0, 2];
    assert [0, 0, 2][1..] == [0, 2];
    assert [0, 2][1..] == [2];
    assert NonZero([2]) == [2];
    assert NonZero([0, 0, 0, 2]) == [2];
  }

  /** An empty line, read either way, reduces to itself. */
  lemma EmptyLineStays(line: seq<int>)
    requires forall k :: 0 <= k < |line| ==> line[k] == 0
    ensures ReduceLine(Reverse(line)) == line
  {
    assert Reverse(line) == Zeros(|line|);
    assert line == Zeros(|line|);
    NonZeroOfZeros(|line|);
  }

  lemma LoneTileRow(g: Board)
    requires g[0] == 2 && forall k :: 1 <= k < N * N ==> g[k] == 0
    ensures ReduceLine(Reverse(Row(g, 0))) == Row(g, 0)
  {
    assert Reverse(Row(g, 0)) == [0, 0, 0, 2];
    LoneTileSlides();
    assert Row(g, 0) == [2, 0, 0, 0];
  }

  /** With a single 2 in the top-left corner, Right reports a move
      although the board comes back exactly as it was: the reversed top
      row `[0, 0, 0, 2]` is reduced to `[2, 0, 0, 0]` and copied back
      unreversed. */
  lemma RightMovedWithoutChange(g: Board)
    requires g[0] == 2 && forall k :: 1 <= k < N * N ==> g[k] == 0
    ensures Step(g, Right).moved
    ensures Step(g, Right).board == g
  {
    RightMovesLoneTile(g);
    RightKeepsLoneTile(g);
  }

  lemma RightMovesLoneTile(g: Board)
    requires g[0] == 2 && forall k :: 1 <= k < N * N ==> g[k] == 0
    ensures SomeRowChanges(g, ViewOf(Right), N)
  {
    var top := ViewRow(g, ViewOf(Right), 0);
    RightRow(g, 0);
    GapBeforeTileChanges(top, 0, N - 1);
  }

  lemma RightKeepsLoneTile(g: Board)
    requires g[0] == 2 && forall k :: 1 <= k < N * N ==> g[k] == 0
    ensures Step(g, Right).board == g
  {
    RightMove(g);
    var h := Step(g, Right).board;
    forall r | 0 <= r < N ensures Row(h, r) == Row(g, r) {
      if r == 0 {
        LoneTileRow(g);
      } else {
        EmptyLineStays(Row(g, r));
      }
    }
    SameRows(h, g);
  }

  /** An empty bottom-right corner beside tiles that all differ from
      their neighbours: `can_move` reports nothing, so a `key_press` that
      spawned a tile would declare the game over, yet Right still moves. */
  lemma CornerGapUnseen(g: Board)
    requires g[At(N - 1, N - 1)] == 0
    requires forall k :: 0 <= k < N * N - 1 ==> g[k] != 0
    requires !EqualNeighbours(g)
    ensures !CanMove(g)
    ensures Step(g, Right).moved
  {
    CanMoveIff(g);
    var m := N - 1;
    var bottom := ViewRow(g, ViewOf(Right), m);
    RightRow(g, m);
    GapBeforeTileChanges(bottom, 0, 1);
  }
}
