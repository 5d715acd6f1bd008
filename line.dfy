/** The line reducer of the 2048 engine: the body of the row loop of
    `Game2048.move` (project4.py, lines 77-93). One reoriented row is
    compacted, merged left to right with a `skip` flag, and padded back
    with zeros. */
module LineReducer {

  // ---------------------------------------------------------------------
  // Tiles
  // ---------------------------------------------------------------------

  predicate IsPowerOfTwo(v: int)
    decreases v
  {
    if v <= 1 then v == 1 else v % 2 == 0 && IsPowerOfTwo(v / 2)
  }

  /** A tile is a power of two no smaller than 2; 0 is an empty cell. */
  predicate IsTile(v: int)
  {
    v >= 2 && IsPowerOfTwo(v)
  }

  /** Every cell is empty or holds a tile. */
  predicate TilesOnly(s: seq<int>)
  {
    forall k :: 0 <= k < |s| ==> s[k] == 0 || IsTile(s[k])
  }

  predicate NonNegative(s: seq<int>)
  {
    forall k :: 0 <= k < |s| ==> s[k] >= 0
  }

  /** No two neighbours are equal, so a left-to-right scan merges nothing. */
  predicate NoAdjacentEqual(s: seq<int>)
  {
    forall k :: 0 <= k < |s| - 1 ==> s[k] != s[k + 1]
  }

  /** Zeros occur only after every non-zero cell. */
  predicate Packed(s: seq<int>)
  {
    forall i, j :: 0 <= i < j < |s| && s[i] == 0 ==> s[j] == 0
  }

  function Sum(s: seq<int>): int
  {
    if s == [] then 0 else s[0] + Sum(s[1..])
  }

  function Zeros(n: nat): (r: seq<int>)
    ensures |r| == n
  {
    seq(n, _ => 0)
  }

  function Reverse(s: seq<int>): (r: seq<int>)
    ensures |r| == |s|
    ensures forall k :: 0 <= k < |s| ==> r[k] == s[|s| - 1 - k]
  {
    seq(|s|, k requires 0 <= k < |s| => s[|s| - 1 - k])
  }

  // ---------------------------------------------------------------------
  // The reduction, as functions
  // ---------------------------------------------------------------------

  /** Line 78: the non-zero cells of a row, in their original order. */
  function NonZero(s: seq<int>): (r: seq<int>)
    ensures |r| <= |s|
    ensures forall k :: 0 <= k < |r| ==> r[k] != 0
  {
    if s == [] then []
    else if s[0] == 0 then NonZero(s[1..])
    else [s[0]] + NonZero(s[1..])
  }

  /** Lines 80-91: scanning left to right, a tile equal to its right
      neighbour is replaced by one tile of twice its value and the
      neighbour is skipped, so no tile takes part in two merges. */
  function Merged(s: seq<int>): (r: seq<int>)
    ensures |r| <= |s|
    ensures |s| <= 2 * |r|
  {
    if |s| == 0 then []
    else if |s| >= 2 && s[0] == s[1] then [2 * s[0]] + Merged(s[2..])
    else [s[0]] + Merged(s[1..])
  }

  /** Line 88: what the scan of `Merged` adds to the score. */
  function MergeScore(s: seq<int>): int
  {
    if |s| == 0 then 0
    else if |s| >= 2 && s[0] == s[1] then 2 * s[0] + MergeScore(s[2..])
    else MergeScore(s[1..])
  }

  /** Lines 78-93: one row after the move, padded to its own length. */
  function ReduceLine(row: seq<int>): (r: seq<int>)
    ensures |r| == |row|
  {
    var m := Merged(NonZero(row));
    m + Zeros(|row| - |m|)
  }

  /** The score gained by reducing one row. */
  function LineScore(row: seq<int>): int
  {
    MergeScore(NonZero(row))
  }

  // ---------------------------------------------------------------------
  // The reduction, as the source runs it
  // ---------------------------------------------------------------------

  /** Lines 77-93 for one row: compact, scan with the `skip` flag, pad.
      The score the row earns is returned instead of being added to the
      game's score one merge at a time. */
  method MergeLine(originalRow: seq<int>) returns (mergedRow: seq<int>, gained: int)
    ensures mergedRow == ReduceLine(originalRow)
    ensures gained == LineScore(originalRow)
  {
    var newRow := NonZero(originalRow);
    mergedRow := [];
    gained := 0;
    var skip := false;
    for j := 0 to |newRow|
      invariant !skip ==> mergedRow + Merged(newRow[j..]) == Merged(newRow)
      invariant !skip ==> gained + MergeScore(newRow[j..]) == MergeScore(newRow)
      invariant skip ==> j < |newRow|
      invariant skip ==> mergedRow + Merged(newRow[j + 1..]) == Merged(newRow)
      invariant skip ==> gained + MergeScore(newRow[j + 1..]) == MergeScore(newRow)
    {
      if skip {
        skip := false;
        continue;
      }
      MergedFrom(newRow, j);
      if j + 1 < |newRow| && newRow[j] == newRow[j + 1] {
        assert mergedRow + [newRow[j] * 2] + Merged(newRow[j + 2..]) == Merged(newRow);
        mergedRow := mergedRow + [newRow[j] * 2];
        gained := gained + newRow[j] * 2;
        skip := true;
      } else {
        assert mergedRow + [newRow[j]] + Merged(newRow[j + 1..]) == Merged(newRow);
        mergedRow := mergedRow + [newRow[j]];
      }
    }
    assert newRow[|newRow|..] == [];
    assert mergedRow == Merged(newRow);
    mergedRow := mergedRow + Zeros(|originalRow| - |mergedRow|);
  }

  /** The scan of `Merged` from position j on either merges cells j and
      j + 1 or keeps cell j. */
  lemma MergedFrom(s: seq<int>, j: nat)
    requires j < |s|
    ensures j + 1 < |s| && s[j] == s[j + 1] ==>
      Merged(s[j..]) == [s[j] * 2] + Merged(s[j + 2..]) &&
      MergeScore(s[j..]) == s[j] * 2 + MergeScore(s[j + 2..])
    ensures !(j + 1 < |s| && s[j] == s[j + 1]) ==>
      Merged(s[j..]) == [s[j]] + Merged(s[j + 1..]) &&
      MergeScore(s[j..]) == MergeScore(s[j + 1..])
  {
    var rest := s[j..];
    assert rest[1..] == s[j + 1..];
    if j + 1 < |s| {
      assert rest[2..] == s[j + 2..];
    }
  }

  // ---------------------------------------------------------------------
  // Properties of the reduction
  // ---------------------------------------------------------------------

  lemma {:induction false} ZerosAreZero(n: nat, k: int)
    requires 0 <= k < n
    ensures Zeros(n)[k] == 0
  {
  }

  /** Compaction keeps every non-zero cell, as often as it occurs. */
  lemma {:induction false} NonZeroElements(s: seq<int>)
    ensures multiset(NonZero(s)) == multiset(s)[0 := 0]
  {
    if s != [] {
      NonZeroElements(s[1..]);
      assert s == [s[0]] + s[1..];
    }
  }

  lemma {:induction false} NonZeroOfNonZero(s: seq<int>)
    requires forall k :: 0 <= k < |s| ==> s[k] != 0
    ensures NonZero(s) == s
  {
    if s != [] {
      NonZeroOfNonZero(s[1..]);
      assert s == [s[0]] + s[1..];
    }
  }

  lemma {:induction false} NonZeroOfZeros(n: nat)
    ensures NonZero(Zeros(n)) == []
  {
    if n > 0 {
      assert Zeros(n)[1..] == Zeros(n - 1);
      NonZeroOfZeros(n - 1);
    }
  }

  lemma {:induction false} NonZeroAppend(a: seq<int>, b: seq<int>)
    ensures NonZero(a + b) == NonZero(a) + NonZero(b)
  {
    if a != [] {
      assert (a + b)[1..] == a[1..] + b;
      NonZeroAppend(a[1..], b);
    } else {
      assert a + b == b;
    }
  }

  /** A packed row is its non-zero cells followed by zeros. */
  lemma {:induction false} PackedSplits(s: seq<int>)
    requires Packed(s)
    ensures s == NonZero(s) + Zeros(|s| - |NonZero(s)|)
  {
    if s != [] {
      assert Packed(s[1..]) by {
        forall i, j | 0 <= i < j < |s[1..]| && s[1..][i] == 0 ensures s[1..][j] == 0 {
          assert s[i + 1] == 0;
        }
      }
      PackedSplits(s[1..]);
      if s[0] == 0 {
        assert forall j :: 0 < j < |s| ==> s[j] == 0;
        assert forall k :: 0 <= k < |s[1..]| ==> s[1..][k] == 0;
        assert s[1..] == Zeros(|s| - 1);
        NonZeroOfZeros(|s| - 1);
        assert s == Zeros(|s|);
      }
    }
  }

  lemma {:induction false} ZeroFreeAfterMerge(s: seq<int>)
    requires forall k :: 0 <= k < |s| ==> s[k] != 0
    ensures forall k :: 0 <= k < |Merged(s)| ==> Merged(s)[k] != 0
  {
    if |s| >= 2 && s[0] == s[1] {
      ZeroFreeAfterMerge(s[2..]);
    } else if |s| > 0 {
      ZeroFreeAfterMerge(s[1..]);
    }
  }

  /** The reduced row is packed: its non-zero cells come first and are
      exactly the merged non-zero cells of the input, in order; zeros
      fill the rest, and there are no more tiles than before. */
  lemma {:induction false} ReduceLineShape(row: seq<int>)
    ensures Packed(ReduceLine(row))
    ensures NonZero(ReduceLine(row)) == Merged(NonZero(row))
    ensures |NonZero(ReduceLine(row))| <= |NonZero(row)|
  {
    var m := Merged(NonZero(row));
    var r := ReduceLine(row);
    ZeroFreeAfterMerge(NonZero(row));
    forall i, j | 0 <= i < j < |r| && r[i] == 0 ensures r[j] == 0 {
      assert i >= |m|;
      ZerosAreZero(|row| - |m|, j - |m|);
    }
    NonZeroAppend(m, Zeros(|row| - |m|));
    NonZeroOfNonZero(m);
    NonZeroOfZeros(|row| - |m|);
  }

  lemma {:induction false} SumAppend(a: seq<int>, b: seq<int>)
    ensures Sum(a + b) == Sum(a) + Sum(b)
  {
    if a == [] {
      assert a + b == b;
    } else {
      assert (a + b)[1..] == a[1..] + b;
      SumAppend(a[1..], b);
    }
  }

  lemma {:induction false} SumZeros(n: nat)
    ensures Sum(Zeros(n)) == 0
  {
    if n > 0 {
      assert Zeros(n)[1..] == Zeros(n - 1);
      SumZeros(n - 1);
    }
  }

  lemma {:induction false} SumNonZero(s: seq<int>)
    ensures Sum(NonZero(s)) == Sum(s)
  {
    if s != [] {
      SumNonZero(s[1..]);
      if s[0] != 0 {
        assert ([s[0]] + NonZero(s[1..]))[1..] == NonZero(s[1..]);
      }
    }
  }

  lemma {:induction false} SumMerged(s: seq<int>)
    ensures Sum(Merged(s)) == Sum(s)
  {
    if |s| >= 2 && s[0] == s[1] {
      SumMerged(s[2..]);
      assert s[1..][1..] == s[2..];
      assert ([2 * s[0]] + Merged(s[2..]))[1..] == Merged(s[2..]);
    } else if |s| > 0 {
      SumMerged(s[1..]);
      assert ([s[0]] + Merged(s[1..]))[1..] == Merged(s[1..]);
    }
  }

  /** Reducing a row keeps the total of its cells. */
  lemma ReduceLineKeepsSum(row: seq<int>)
    ensures Sum(ReduceLine(row)) == Sum(row)
  {
    var m := Merged(NonZero(row));
    SumAppend(m, Zeros(|row| - |m|));
    SumZeros(|row| - |m|);
    SumMerged(NonZero(row));
    SumNonZero(row);
  }

  lemma {:induction false} SumNonNegative(s: seq<int>)
    requires NonNegative(s)
    ensures Sum(s) >= 0
  {
    if s != [] {
      SumNonNegative(s[1..]);
    }
  }

  lemma {:induction false} MergeScoreBounds(s: seq<int>)
    requires NonNegative(s)
    ensures 0 <= MergeScore(s) <= Sum(s)
  {
    if |s| >= 2 && s[0] == s[1] {
      MergeScoreBounds(s[2..]);
      assert s[1..][1..] == s[2..];
    } else if |s| > 0 {
      MergeScoreBounds(s[1..]);
    }
  }

  lemma {:induction false} NonZeroNonNegative(s: seq<int>)
    requires NonNegative(s)
    ensures NonNegative(NonZero(s))
  {
    NonZeroElements(s);
    forall k | 0 <= k < |NonZero(s)| ensures NonZero(s)[k] >= 0 {
      var x := NonZero(s)[k];
      assert x in multiset(NonZero(s));
      assert x in multiset(s);
    }
  }

  /** On a row of non-negative cells the score never decreases and
      gains at most the row's total. */
  lemma LineScoreBounds(row: seq<int>)
    requires NonNegative(row)
    ensures 0 <= LineScore(row) <= Sum(row)
  {
    NonZeroNonNegative(row);
    MergeScoreBounds(NonZero(row));
    SumNonZero(row);
  }

  /** The scan changes a line exactly when two neighbours are equal. */
  lemma {:induction false} MergedFixpoint(s: seq<int>)
    ensures Merged(s) == s <==> NoAdjacentEqual(s)
  {
    if |s| >= 2 && s[0] == s[1] {
      assert |Merged(s)| < |s|;
    } else if |s| > 0 {
      MergedFixpoint(s[1..]);
      if NoAdjacentEqual(s) {
        assert NoAdjacentEqual(s[1..]);
        assert s == [s[0]] + s[1..];
      } else {
        var k :| 0 <= k < |s| - 1 && s[k] == s[k + 1];
        assert k >= 1;
        assert !NoAdjacentEqual(s[1..]) by { assert s[1..][k - 1] == s[1..][k]; }
        assert Merged(s)[1..] == Merged(s[1..]);
      }
    }
  }

  /** For a line of tiles the scan scores nothing exactly when no two
      neighbours are equal. */
  lemma {:induction false} MergeScoreZero(s: seq<int>)
    requires forall k :: 0 <= k < |s| ==> s[k] > 0
    ensures MergeScore(s) == 0 <==> NoAdjacentEqual(s)
  {
    if |s| >= 2 && s[0] == s[1] {
      assert forall k :: 0 <= k < |s[2..]| ==> s[2..][k] >= 0;
      MergeScoreBounds(s[2..]);
    } else if |s| > 0 {
      MergeScoreZero(s[1..]);
      if !NoAdjacentEqual(s) {
        var k :| 0 <= k < |s| - 1 && s[k] == s[k + 1];
        assert s[1..][k - 1] == s[1..][k];
      }
    }
  }

  /** Without equal neighbours the scan scores nothing, whatever the
      values. */
  lemma {:induction false} NoMergeScoresNothing(s: seq<int>)
    requires NoAdjacentEqual(s)
    ensures MergeScore(s) == 0
  {
    if |s| > 0 {
      assert NoAdjacentEqual(s[1..]) by {
        forall k | 0 <= k < |s[1..]| - 1 ensures s[1..][k] != s[1..][k + 1] {
          assert s[k + 1] != s[k + 2];
        }
      }
      NoMergeScoresNothing(s[1..]);
    }
  }

  /** A row is left unchanged by the reduction exactly when it is packed
      and no two of its tiles are neighbours of equal value. */
  lemma ReduceLineFixpoint(row: seq<int>)
    ensures ReduceLine(row) == row <==> Packed(row) && NoAdjacentEqual(NonZero(row))
  {
    ReduceLineShape(row);
    MergedFixpoint(NonZero(row));
    if Packed(row) && NoAdjacentEqual(NonZero(row)) {
      PackedSplits(row);
    }
  }

  /** A row the reduction leaves unchanged earns no score. */
  lemma UnchangedLineScoresNothing(row: seq<int>)
    requires ReduceLine(row) == row
    ensures LineScore(row) == 0
  {
    ReduceLineFixpoint(row);
    NoMergeScoresNothing(NonZero(row));
  }

  /** A full row (no empty cell) is left unchanged exactly when no two
      neighbours are equal. */
  lemma FullLineFixpoint(row: seq<int>)
    requires forall k :: 0 <= k < |row| ==> row[k] != 0
    ensures ReduceLine(row) == row <==> NoAdjacentEqual(row)
  {
    NonZeroOfNonZero(row);
    ReduceLineFixpoint(row);
  }

  lemma {:induction false} DoubleTile(v: int)
    requires IsTile(v)
    ensures IsTile(2 * v)
  {
    assert (2 * v) / 2 == v;
  }

  lemma {:induction false} MergedKeepsTiles(s: seq<int>)
    requires forall k :: 0 <= k < |s| ==> IsTile(s[k])
    ensures forall k :: 0 <= k < |Merged(s)| ==> IsTile(Merged(s)[k])
  {
    if |s| >= 2 && s[0] == s[1] {
      DoubleTile(s[0]);
      MergedKeepsTiles(s[2..]);
    } else if |s| > 0 {
      MergedKeepsTiles(s[1..]);
    }
  }

  /** A row of tiles and empty cells reduces to tiles and empty cells. */
  lemma ReduceLineKeepsTiles(row: seq<int>)
    requires TilesOnly(row)
    ensures TilesOnly(ReduceLine(row))
  {
    var nz := NonZero(row);
    NonZeroElements(row);
    forall k | 0 <= k < |nz| ensures IsTile(nz[k]) {
      assert nz[k] in multiset(nz);
      assert nz[k] in multiset(row);
    }
    MergedKeepsTiles(nz);
    var m := Merged(nz);
    forall k | 0 <= k < |ReduceLine(row)| ensures ReduceLine(row)[k] == 0 || IsTile(ReduceLine(row)[k]) {
      if k >= |m| {
        ZerosAreZero(|row| - |m|, k - |m|);
      }
    }
  }

  /** Four equal tiles become two merged tiles, not one. */
  lemma MergeOnceFourEqual()
    ensures ReduceLine([2, 2, 2, 2]) == [4, 4, 0, 0]
    ensures LineScore([2, 2, 2, 2]) == 8
  {
    assert NonZero([2, 2, 2, 2]) == [2, 2, 2, 2];
    assert [2, 2, 2, 2][2..] == [2, 2];
    assert Merged([2, 2]) == [4];
  }

  /** A freshly merged tile does not merge again with the tile after it. */
  lemma MergeOnceThreeEqual()
    ensures ReduceLine([2, 2, 2, 0]) == [4, 2, 0, 0]
    ensures LineScore([2, 2, 2, 0]) == 4
  {
    assert NonZero([0]) == [];
    assert NonZero([2, 0]) == [2] + NonZero([0]);
    assert NonZero([2, 2, 0]) == [2] + NonZero([2, 0]);
    assert NonZero([2, 2, 2, 0]) == [2, 2, 2];
    assert [2, 2, 2][2..] == [2];
    assert Merged([2]) == [2];
    assert Merged([2, 2, 2]) == [4, 2];
  }

  /** Without equal neighbours the row is only compacted. */
  lemma CompactOnly()
    ensures ReduceLine([2, 0, 4, 0]) == [2, 4, 0, 0]
    ensures LineScore([2, 0, 4, 0]) == 0
  {
    assert NonZero([2, 0, 4, 0]) == [2, 4];
    assert [2, 4][1..] == [4];
  }

  /** Cells that are empty or tiles are never negative. */
  lemma TilesNonNegative(s: seq<int>)
    requires TilesOnly(s)
    ensures NonNegative(s)
  {
    forall k | 0 <= k < |s| ensures s[k] >= 0 {
      assert s[k] == 0 || IsTile(s[k]);
    }
  }

  /** A line that keeps its length under `NonZero` had no empty cell. */
  lemma {:induction false} NonZeroKeepsFull(s: seq<int>)
    requires |NonZero(s)| == |s|
    ensures NonZero(s) == s
  {
    if s != [] {
      if s[0] == 0 {
        assert false;
      }
      NonZeroKeepsFull(s[1..]);
      assert s == [s[0]] + s[1..];
    }
  }

  /** A scan that merges something shortens the sequence. */
  lemma {:induction false} MergedKeepsLength(s: seq<int>)
    requires |Merged(s)| == |s|
    ensures Merged(s) == s
  {
    if s != [] {
      if |s| >= 2 && s[0] == s[1] {
        assert false;
      }
      MergedKeepsLength(s[1..]);
      assert s == [s[0]] + s[1..];
    }
  }

  /** A row the reduction changes ends in an empty cell: either it had an
      empty cell, or two of its tiles merged into one. */
  lemma ChangedLineHasGap(row: seq<int>)
    requires ReduceLine(row) != row
    ensures |row| > 0 && ReduceLine(row)[|row| - 1] == 0
  {
    var nz := NonZero(row);
    var m := Merged(nz);
    if |m| == |row| {
      NonZeroKeepsFull(row);
      MergedKeepsLength(nz);
      assert false;
    }
    ZerosAreZero(|row| - |m|, |row| - 1 - |m|);
  }
}
