/** The 4×4 grid and the `move` operation: each row (Left/Right) or column
    (Up/Down) is read toward its start, passed through the direction's
    callback, and written back; the move reports whether any cell changed. */
module Board {
  import opened Line
  import opened LineProperties

  /** The grid as rows of cells, `grid[row][col]`; 0 is an empty cell. */
  type Grid = seq<seq<nat>>

  /** Four rows of four cells. */
  predicate Shaped(g: Grid) {
    |g| == 4 && forall r :: 0 <= r < 4 ==> |g[r]| == 4
  }

  /** A grid the game can reach: the right shape, every cell empty or a power of two. */
  predicate WellFormed(g: Grid) {
    Shaped(g) && forall r :: 0 <= r < 4 ==> AllCellValues(g[r])
  }

  /** `this.grid = Array(4).fill().map(() => Array(4).fill(0))`: whatever
      grid `g` held, every cell is now empty. `g` is the grid being replaced;
      it is a parameter so that the contract can say nothing of it is kept. */
  function Cleared(g: Grid): (z: Grid)
    ensures WellFormed(z)
    ensures forall r, c :: 0 <= r < 4 && 0 <= c < 4 ==> z[r][c] == 0
  {
    seq(4, _ => [0, 0, 0, 0])
  }

  datatype Direction = Up | Down | Left | Right

  /** Up and Down move along columns (`move(callback, true)`). */
  predicate Vertical(d: Direction) {
    d == Up || d == Down
  }

  /** The callback each direction hands to `move`: Left and Up share the
      forward scan, Right and Down share the backward scan. */
  function Callback(d: Direction, line: seq<nat>): Slide {
    if d == Left || d == Up then SlideLeft(line) else SlideRight(line)
  }

  /** Column `c` read top to bottom (`this.grid.map(row => row[i])`). */
  function Column(g: Grid, c: nat): (col: seq<nat>)
    requires Shaped(g) && c < 4
    ensures |col| == 4
  {
    [g[0][c], g[1][c], g[2][c], g[3][c]]
  }

  /** Line `i` of the grid along the axis of the move. */
  function LineOf(g: Grid, vertical: bool, i: nat): (line: seq<nat>)
    requires Shaped(g) && i < 4
    ensures |line| == 4
  {
    if vertical then Column(g, i) else g[i]
  }

  datatype MoveResult = MoveResult(grid: Grid, gain: nat, moved: bool)

  /** The callback's output for each of the four lines along the axis. */
  function Outputs(g: Grid, d: Direction): (ls: seq<seq<nat>>)
    requires Shaped(g)
    ensures |ls| == 4
    ensures forall i :: 0 <= i < 4 ==> ls[i] == Callback(d, LineOf(g, Vertical(d), i)).line
    ensures forall i :: 0 <= i < 4 ==> |ls[i]| == 4
  {
    seq(4, i requires 0 <= i < 4 => Callback(d, LineOf(g, Vertical(d), i)).line)
  }

  /** The score the four callbacks earn together. */
  function TotalGain(g: Grid, d: Direction): nat
    requires Shaped(g)
  {
    var v := Vertical(d);
    Callback(d, LineOf(g, v, 0)).gain + Callback(d, LineOf(g, v, 1)).gain
      + Callback(d, LineOf(g, v, 2)).gain + Callback(d, LineOf(g, v, 3)).gain
  }

  /** The write-back: the grid whose line `i` along the axis is `ls[i]`. */
  function Place(ls: seq<seq<nat>>, vertical: bool): (g: Grid)
    requires |ls| == 4 && forall i :: 0 <= i < 4 ==> |ls[i]| == 4
    ensures Shaped(g)
    ensures forall i :: 0 <= i < 4 ==> LineOf(g, vertical, i) == ls[i]
  {
    if vertical then
      var g := seq(4, r requires 0 <= r < 4 => [ls[0][r], ls[1][r], ls[2][r], ls[3][r]]);
      assert forall i :: 0 <= i < 4 ==> Column(g, i) == ls[i];
      g
    else ls
  }

  /** Some cell differs between the two grids. */
  predicate Differs(a: Grid, b: Grid)
    requires Shaped(a) && Shaped(b)
  {
    exists i, j :: 0 <= i < 4 && 0 <= j < 4 && a[i][j] != b[i][j]
  }

  /** `move`: every line along the axis is replaced by the callback's
      output on it, the callbacks' gains go to the score, and the result
      says whether any cell now differs from before. */
  function Move(g: Grid, d: Direction): (r: MoveResult)
    requires Shaped(g)
    ensures Shaped(r.grid)
    ensures forall i :: 0 <= i < 4 ==>
              LineOf(r.grid, Vertical(d), i) == Callback(d, LineOf(g, Vertical(d), i)).line
    ensures r.gain == TotalGain(g, d)
    ensures r.moved <==> Differs(r.grid, g)
  {
    var grid := Place(Outputs(g, d), Vertical(d));
    MoveResult(grid, TotalGain(g, d), Differs(grid, g))
  }

  /** No-op moves: a move that reports no change leaves the grid as it was
      and earns nothing, because every merge changes its line. */
  lemma NoOpMove(g: Grid, d: Direction)
    requires Shaped(g)
    ensures !Move(g, d).moved ==> Move(g, d).grid == g && Move(g, d).gain == 0
  {
    var r := Move(g, d);
    if !r.moved {
      SameCells(r.grid, g);
      UnchangedLinesEarnNothing(g, d);
    }
  }

  /** Two grids of the same shape that agree on every cell are equal. */
  lemma SameCells(a: Grid, b: Grid)
    requires Shaped(a) && Shaped(b)
    requires !Differs(a, b)
    ensures a == b
  {
    assert forall i :: 0 <= i < 4 ==> a[i] == b[i];
  }

  /** If every line is left unchanged by the callback, no callback earned anything. */
  lemma UnchangedLinesEarnNothing(g: Grid, d: Direction)
    requires Shaped(g)
    requires forall i :: 0 <= i < 4 ==> Callback(d, LineOf(g, Vertical(d), i)).line == LineOf(g, Vertical(d), i)
    ensures forall i :: 0 <= i < 4 ==> Callback(d, LineOf(g, Vertical(d), i)).gain == 0
  {
    forall i | 0 <= i < 4
      ensures Callback(d, LineOf(g, Vertical(d), i)).gain == 0
    {
      var line := LineOf(g, Vertical(d), i);
      if d == Left || d == Up {
        SlideLeftFixed(line);
      } else {
        SlideRightFixed(line);
      }
    }
  }

  // ---------------------------------------------------------------------
  // What a move keeps

  function GridSum(g: Grid): nat
    requires Shaped(g)
  {
    Sum(g[0]) + Sum(g[1]) + Sum(g[2]) + Sum(g[3])
  }

  lemma Sum4(s: seq<nat>)
    requires |s| == 4
    ensures Sum(s) == s[0] + s[1] + s[2] + s[3]
  {
    assert s[1..][1..][1..][1..] == [];
    assert Sum(s[1..][1..][1..]) == s[3];
    assert Sum(s[1..][1..]) == s[2] + s[3];
  }

  /** The grid total summed column by column. */
  lemma GridSumColumns(g: Grid)
    requires Shaped(g)
    ensures GridSum(g) == Sum(Column(g, 0)) + Sum(Column(g, 1)) + Sum(Column(g, 2)) + Sum(Column(g, 3))
  {
    Sum4(g[0]); Sum4(g[1]); Sum4(g[2]); Sum4(g[3]);
    Sum4(Column(g, 0)); Sum4(Column(g, 1)); Sum4(Column(g, 2)); Sum4(Column(g, 3));
  }

  lemma CallbackSum(d: Direction, line: seq<nat>)
    ensures Sum(Callback(d, line).line) == Sum(line)
  {
  }

  /** The grid total is the sum of the totals of the four lines along either axis. */
  lemma GridSumLines(g: Grid, vertical: bool)
    requires Shaped(g)
    ensures GridSum(g) == Sum(LineOf(g, vertical, 0)) + Sum(LineOf(g, vertical, 1))
                          + Sum(LineOf(g, vertical, 2)) + Sum(LineOf(g, vertical, 3))
  {
    if vertical {
      GridSumColumns(g);
    }
  }

  /** Each callback keeps the total of its line. */
  lemma MoveKeepsLineSums(g: Grid, d: Direction)
    requires Shaped(g)
    ensures forall i :: 0 <= i < 4 ==>
              Sum(LineOf(Move(g, d).grid, Vertical(d), i)) == Sum(LineOf(g, Vertical(d), i))
  {
    forall i | 0 <= i < 4
      ensures Sum(LineOf(Move(g, d).grid, Vertical(d), i)) == Sum(LineOf(g, Vertical(d), i))
    {
      CallbackSum(d, LineOf(g, Vertical(d), i));
    }
  }

  /** Conservation: a merge replaces two tiles `x` by one `2x`, so the total
      of the cells is the same after any move; only the score grows. */
  lemma MoveKeepsSum(g: Grid, d: Direction)
    requires Shaped(g)
    ensures GridSum(Move(g, d).grid) == GridSum(g)
  {
    MoveKeepsLineSums(g, d);
    GridSumLines(Move(g, d).grid, Vertical(d));
    GridSumLines(g, Vertical(d));
  }

  /** A grid whose lines along either axis all hold cell values is well formed. */
  lemma LinesWellFormed(g: Grid, vertical: bool)
    requires Shaped(g)
    requires forall i :: 0 <= i < 4 ==> AllCellValues(LineOf(g, vertical, i))
    ensures WellFormed(g)
  {
    if vertical {
      forall row, c | 0 <= row < 4 && 0 <= c < 4
        ensures IsCellValue(g[row][c])
      {
        assert g[row][c] == LineOf(g, vertical, c)[row];
      }
    } else {
      assert forall i :: 0 <= i < 4 ==> LineOf(g, vertical, i) == g[i];
    }
  }

  /** Every line of a well-formed grid holds cell values. */
  lemma WellFormedLines(g: Grid, vertical: bool)
    requires WellFormed(g)
    ensures forall i :: 0 <= i < 4 ==> AllCellValues(LineOf(g, vertical, i))
  {
    if vertical {
      forall i, row | 0 <= i < 4 && 0 <= row < 4
        ensures IsCellValue(LineOf(g, vertical, i)[row])
      {
        assert LineOf(g, vertical, i)[row] == g[row][i];
      }
    }
  }

  /** The callbacks turn cell values into cell values. */
  lemma CallbackCellValues(d: Direction, line: seq<nat>)
    requires AllCellValues(line)
    ensures AllCellValues(Callback(d, line).line)
  {
    if d == Left || d == Up {
      SlideLeftCellValues(line);
    } else {
      SlideRightCellValues(line);
    }
  }

  /** Cells that were empty or powers of two stay so after any move. */
  lemma MoveKeepsWellFormed(g: Grid, d: Direction)
    requires WellFormed(g)
    ensures WellFormed(Move(g, d).grid)
  {
    var r := Move(g, d).grid;
    var v := Vertical(d);
    WellFormedLines(g, v);
    forall i | 0 <= i < 4
      ensures AllCellValues(LineOf(r, v, i))
    {
      CallbackCellValues(d, LineOf(g, v, i));
    }
    LinesWellFormed(r, v);
  }
}
