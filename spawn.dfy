/** `add_random_tile` and `start_game` (project4.py, lines 28-42): where a
    new tile can land, what it can be, and the opening board. */
module Spawning {
  import opened LineReducer
  import opened Grid

  /** The number of tiles on a board. */
  function TileCount(g: seq<int>): nat
  {
    |NonZero(g)|
  }

  /** Line 29: the empty board. */
  function EmptyBoard(): Board
  {
    Zeros(N * N)
  }

  /** Lines 29-32: the board `start_game` leaves, for the two draws of
      each `add_random_tile`. */
  function Opening(pick1: nat, four1: bool, pick2: nat, four2: bool): Board
  {
    Spawn(Spawn(EmptyBoard(), pick1, four1), pick2, four2)
  }

  /** Filling one empty cell with a tile adds one to the count. */
  lemma {:induction false} CountAfterFill(s: seq<int>, k: nat, x: int)
    requires k < |s| && s[k] == 0 && x != 0
    ensures TileCount(s[k := x]) == TileCount(s) + 1
  {
    if k == 0 {
      assert s[k := x] == [x] + s[1..];
      assert s[k := x][1..] == s[1..];
    } else {
      assert s[k := x][1..] == s[1..][k - 1 := x];
      CountAfterFill(s[1..], k - 1, x);
    }
  }

  /** A board with fewer tiles than cells has an empty cell. */
  lemma {:induction false} GapWhenNotFull(s: seq<int>)
    requires TileCount(s) < |s|
    ensures exists k :: 0 <= k < |s| && s[k] == 0
  {
    if s[0] != 0 {
      GapWhenNotFull(s[1..]);
      var k :| 0 <= k < |s[1..]| && s[1..][k] == 0;
      assert s[k + 1] == 0;
    }
  }

  lemma {:induction false} EmptyHasNoTiles(s: seq<int>)
    requires forall k :: 0 <= k < |s| ==> s[k] == 0
    ensures TileCount(s) == 0
  {
    if s != [] {
      EmptyHasNoTiles(s[1..]);
    }
  }

  /** Line 42: a new tile is a 2 or a 4. */
  lemma TileValueIsTile(four: bool)
    ensures TileValue(four) == 2 || TileValue(four) == 4
    ensures IsTile(TileValue(four))
  {
    assert IsPowerOfTwo(1);
    assert IsPowerOfTwo(2);
  }

  /** Lines 40-42 on a full board: nothing changes. */
  lemma SpawnOnFullBoard(g: Board, pick: nat, four: bool)
    requires forall k :: 0 <= k < N * N ==> g[k] != 0
    ensures Spawn(g, pick, four) == g
  {
  }

  /** Lines 39-42 on a board with an empty cell: exactly one cell that
      was empty receives a 2 or a 4, and the board gains one tile. */
  lemma SpawnFillsOneGap(g: Board, pick: nat, four: bool)
    requires exists k :: 0 <= k < N * N && g[k] == 0
    ensures exists k :: 0 <= k < N * N && g[k] == 0 && Spawn(g, pick, four) == g[k := TileValue(four)]
    ensures TileCount(Spawn(g, pick, four)) == TileCount(g) + 1
  {
    var z :| 0 <= z < N * N && g[z] == 0;
    var e := EmptyCells(g);
    assert z in e;
    var k := e[pick % |e|];
    assert k in e;
    TileValueIsTile(four);
    CountAfterFill(g, k, TileValue(four));
  }

  /** Every empty cell is the one `random.choice` picks for some draw. */
  lemma SpawnReachesEveryGap(g: Board, k: nat, four: bool)
    requires k < N * N && g[k] == 0
    ensures exists pick: nat :: Spawn(g, pick, four) == g[k := TileValue(four)]
  {
    var e := EmptyCells(g);
    assert k in e;
    var i :| 0 <= i < |e| && e[i] == k;
    var pick: nat := i;
    assert pick % |e| == i;
    assert e[pick % |e|] == k;
    assert Spawn(g, pick, four) == g[k := TileValue(four)];
  }

  /** A spawn keeps a board of tiles and empty cells one. */
  lemma SpawnKeepsTiles(g: Board, pick: nat, four: bool)
    requires TilesOnly(g)
    ensures TilesOnly(Spawn(g, pick, four))
  {
    TileValueIsTile(four);
  }

  /** Two spawns on an empty board leave two tiles, each a 2 or a 4. */
  lemma TwoSpawnsOnEmpty(e: Board, pick1: nat, four1: bool, pick2: nat, four2: bool)
    requires forall k :: 0 <= k < N * N ==> e[k] == 0
    ensures TileCount(Spawn(Spawn(e, pick1, four1), pick2, four2)) == 2
    ensures forall k :: 0 <= k < N * N ==> Spawn(Spawn(e, pick1, four1), pick2, four2)[k] in {0, 2, 4}
  {
    EmptyHasNoTiles(e);
    assert e[0] == 0;
    SpawnFillsOneGap(e, pick1, four1);
    var g := Spawn(e, pick1, four1);
    GapWhenNotFull(g);
    SpawnFillsOneGap(g, pick2, four2);
    TileValueIsTile(four1);
    TileValueIsTile(four2);
    assert forall k :: 0 <= k < N * N ==> g[k] in {0, 2, 4};
  }

  /** After `start_game` the board holds exactly two tiles, and every
      cell is empty or holds a 2 or a 4. */
  lemma OpeningHasTwoTiles(pick1: nat, four1: bool, pick2: nat, four2: bool)
    ensures TileCount(Opening(pick1, four1, pick2, four2)) == 2
    ensures forall k :: 0 <= k < N * N ==> Opening(pick1, four1, pick2, four2)[k] in {0, 2, 4}
  {
    var e := EmptyBoard();
    assert forall k :: 0 <= k < N * N ==> e[k] == 0;
    TwoSpawnsOnEmpty(e, pick1, four1, pick2, four2);
  }

  /** The board `start_game` leaves holds only tiles and empty cells. */
  lemma OpeningTilesOnly(pick1: nat, four1: bool, pick2: nat, four2: bool)
    ensures TilesOnly(Opening(pick1, four1, pick2, four2))
  {
    var e := EmptyBoard();
    assert forall k :: 0 <= k < N * N ==> e[k] == 0;
    TwoSpawnsOnEmpty(e, pick1, four1, pick2, four2);
    SmallTilesOnly(Spawn(Spawn(e, pick1, four1), pick2, four2));
  }

  /** A board of empty cells, 2s and 4s holds only tiles and empty cells. */
  lemma SmallTilesOnly(b: Board)
    requires forall k :: 0 <= k < N * N ==> b[k] in {0, 2, 4}
    ensures TilesOnly(b)
  {
    TileValueIsTile(false);
    TileValueIsTile(true);
    forall k | 0 <= k < |b| ensures b[k] == 0 || IsTile(b[k]) {
      assert b[k] in {0, 2, 4};
    }
  }
}
