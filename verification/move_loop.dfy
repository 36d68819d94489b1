/** `move` as the game writes it: for each line along the axis, read the
    line out of the grid being updated, run the direction's callback on
    it, and write back only the cells that differ, noting that something
    moved. Proved to compute the functional `Board.Move`. */
module MoveLoop {
  import opened Line
  import opened Board
  import Scan

  /** Cell `j` of line `i` along the axis: `grid[j][i]` for a column,
      `grid[i][j]` for a row. */
  function At(g: Grid, vertical: bool, i: nat, j: nat): (x: nat)
    requires Shaped(g) && i < 4 && j < 4
    ensures x == LineOf(g, vertical, i)[j]
  {
    if vertical then g[j][i] else g[i][j]
  }

  /** The grid with cell `j` of line `i` set to `x` and every other cell kept. */
  function SetAt(g: Grid, vertical: bool, i: nat, j: nat, x: nat): (h: Grid)
    requires Shaped(g) && i < 4 && j < 4
    ensures Shaped(h)
    ensures At(h, vertical, i, j) == x
    ensures forall a, b :: 0 <= a < 4 && 0 <= b < 4 && (a != i || b != j) ==>
              At(h, vertical, a, b) == At(g, vertical, a, b)
  {
    if vertical then
      var row: seq<nat> := g[j][i := x];
      g[j := row]
    else
      var row: seq<nat> := g[i][j := x];
      g[i := row]
  }

  /** The score the callbacks have added after the first `n` lines. */
  function GainUpTo(g: Grid, d: Direction, n: nat): nat
    requires Shaped(g) && n <= 4
  {
    if n == 0 then 0 else GainUpTo(g, d, n - 1) + Callback(d, LineOf(g, Vertical(d), n - 1)).gain
  }

  /** After all four lines the callbacks have added the whole gain of the move. */
  lemma GainUpToAll(g: Grid, d: Direction)
    requires Shaped(g)
    ensures GainUpTo(g, d, 4) == TotalGain(g, d)
  {
    assert GainUpTo(g, d, 1) == Callback(d, LineOf(g, Vertical(d), 0)).gain;
    assert GainUpTo(g, d, 2) == GainUpTo(g, d, 1) + Callback(d, LineOf(g, Vertical(d), 1)).gain;
    assert GainUpTo(g, d, 3) == GainUpTo(g, d, 2) + Callback(d, LineOf(g, Vertical(d), 2)).gain;
  }

  /** The invariant of the write-back, with the cells numbered `4 * line + position`
      in the order the loops visit them: cells before `k` hold the callback's
      output, the others still hold the old grid's value, and `moved` says
      whether some visited cell had to be rewritten. */
  ghost predicate MoveInv(g: Grid, d: Direction, out: seq<seq<nat>>, cur: Grid, k: int, moved: bool) {
    && Shaped(g) && Shaped(cur) && 0 <= k <= 16
    && out == Outputs(g, d)
    && (forall a, b :: 0 <= a < 4 && 0 <= b < 4 && 4 * a + b < k ==>
          At(cur, Vertical(d), a, b) == out[a][b])
    && (forall a, b :: 0 <= a < 4 && 0 <= b < 4 && 4 * a + b >= k ==>
          At(cur, Vertical(d), a, b) == At(g, Vertical(d), a, b))
    && (moved <==> (exists a, b :: 0 <= a < 4 && 0 <= b < 4 && 4 * a + b < k &&
                                  out[a][b] != At(g, Vertical(d), a, b)))
  }

  /** A line the loop has not reached yet is read out unchanged. */
  lemma LineUnwritten(g: Grid, d: Direction, out: seq<seq<nat>>, cur: Grid, i: nat, moved: bool)
    requires MoveInv(g, d, out, cur, 4 * i, moved) && i < 4
    ensures LineOf(cur, Vertical(d), i) == LineOf(g, Vertical(d), i)
  {
    var v := Vertical(d);
    forall b | 0 <= b < 4
      ensures LineOf(cur, v, i)[b] == LineOf(g, v, i)[b]
    {
      assert At(cur, v, i, b) == At(g, v, i, b);
    }
  }

  /** A cell that differs from the output is rewritten, and the move is noted. */
  lemma WriteStep(g: Grid, d: Direction, out: seq<seq<nat>>, cur: Grid, i: nat, j: nat, moved: bool)
    requires MoveInv(g, d, out, cur, 4 * i + j, moved) && i < 4 && j < 4
    requires At(cur, Vertical(d), i, j) != out[i][j]
    ensures MoveInv(g, d, out, SetAt(cur, Vertical(d), i, j, out[i][j]), 4 * i + j + 1, true)
  {
    var v := Vertical(d);
    var h := SetAt(cur, v, i, j, out[i][j]);
    forall a, b | 0 <= a < 4 && 0 <= b < 4 && 4 * a + b < 4 * i + j + 1
      ensures At(h, v, a, b) == out[a][b]
    {
      if a != i || b != j {
        assert 4 * a + b < 4 * i + j;
      }
    }
    assert At(cur, v, i, j) == At(g, v, i, j);
  }

  /** A cell that already holds the output is left alone. */
  lemma SkipStep(g: Grid, d: Direction, out: seq<seq<nat>>, cur: Grid, i: nat, j: nat, moved: bool)
    requires MoveInv(g, d, out, cur, 4 * i + j, moved) && i < 4 && j < 4
    requires At(cur, Vertical(d), i, j) == out[i][j]
    ensures MoveInv(g, d, out, cur, 4 * i + j + 1, moved)
  {
    var v := Vertical(d);
    assert At(cur, v, i, j) == At(g, v, i, j);
    forall a, b | 0 <= a < 4 && 0 <= b < 4 && 4 * a + b < 4 * i + j + 1
      ensures At(cur, v, a, b) == out[a][b]
    {
      if a != i || b != j {
        assert 4 * a + b < 4 * i + j;
      }
    }
    if moved {
      var a, b :| 0 <= a < 4 && 0 <= b < 4 && 4 * a + b < 4 * i + j && out[a][b] != At(g, v, a, b);
      assert 4 * a + b < 4 * i + j + 1;
    }
  }

  /** Two grids that agree on every cell of every line are equal. */
  lemma SameLines(x: Grid, y: Grid, vertical: bool)
    requires Shaped(x) && Shaped(y)
    requires forall a, b :: 0 <= a < 4 && 0 <= b < 4 ==> At(x, vertical, a, b) == At(y, vertical, a, b)
    ensures x == y
  {
    forall r | 0 <= r < 4
      ensures x[r] == y[r]
    {
      forall c | 0 <= c < 4
        ensures x[r][c] == y[r][c]
      {
        if vertical {
          assert At(x, vertical, c, r) == At(y, vertical, c, r);
        } else {
          assert At(x, vertical, r, c) == At(y, vertical, r, c);
        }
      }
    }
  }

  /** Some cell of some line differs exactly when some cell of some row does. */
  lemma DiffersAlongLines(x: Grid, y: Grid, vertical: bool)
    requires Shaped(x) && Shaped(y)
    ensures Differs(x, y) <==>
            exists a, b :: 0 <= a < 4 && 0 <= b < 4 && At(x, vertical, a, b) != At(y, vertical, a, b)
  {
    if Differs(x, y) {
      var r, c :| 0 <= r < 4 && 0 <= c < 4 && x[r][c] != y[r][c];
      if vertical {
        assert At(x, vertical, c, r) != At(y, vertical, c, r);
      } else {
        assert At(x, vertical, r, c) != At(y, vertical, r, c);
      }
    }
    if exists a, b :: 0 <= a < 4 && 0 <= b < 4 && At(x, vertical, a, b) != At(y, vertical, a, b) {
      var a, b :| 0 <= a < 4 && 0 <= b < 4 && At(x, vertical, a, b) != At(y, vertical, a, b);
      if vertical {
        assert x[b][a] != y[b][a];
      } else {
        assert x[a][b] != y[a][b];
      }
    }
  }

  /** Every cell visited: the grid and the flag are those of `Move`. */
  lemma MoveDone(g: Grid, d: Direction, out: seq<seq<nat>>, cur: Grid, moved: bool)
    requires MoveInv(g, d, out, cur, 16, moved)
    ensures cur == Move(g, d).grid && moved == Move(g, d).moved
  {
    var v := Vertical(d);
    var m := Move(g, d).grid;
    forall a, b | 0 <= a < 4 && 0 <= b < 4
      ensures At(cur, v, a, b) == At(m, v, a, b)
    {
      assert 4 * a + b < 16;
    }
    SameLines(cur, m, v);
    DiffersAlongLines(m, g, v);
    if moved {
      var a, b :| 0 <= a < 4 && 0 <= b < 4 && 4 * a + b < 16 && out[a][b] != At(g, v, a, b);
      assert At(m, v, a, b) != At(g, v, a, b);
    }
    if Move(g, d).moved {
      var a, b :| 0 <= a < 4 && 0 <= b < 4 && At(m, v, a, b) != At(g, v, a, b);
      assert 4 * a + b < 16;
    }
  }

  /** The callback `moveLeft`/`moveUp` or `moveRight`/`moveDown` hands to `move`. */
  method RunCallback(d: Direction, line: seq<nat>) returns (newLine: seq<nat>, gain: nat)
    ensures newLine == Callback(d, line).line && gain == Callback(d, line).gain
  {
    if d == Left || d == Up {
      newLine, gain := Scan.LeftCallback(line);
    } else {
      newLine, gain := Scan.RightCallback(line);
    }
  }

  /** The inner loop of `move`: compare each cell of line `i` with the
      callback's output and rewrite the ones that differ. */
  method WriteLine(g: Grid, d: Direction, ghost out: seq<seq<nat>>, grid0: Grid, i: nat,
                   newLine: seq<nat>, moved0: bool)
    returns (grid: Grid, moved: bool)
    requires MoveInv(g, d, out, grid0, 4 * i, moved0) && i < 4
    requires newLine == out[i]
    ensures MoveInv(g, d, out, grid, 4 * i + 4, moved)
  {
    var v := Vertical(d);
    grid, moved := grid0, moved0;
    var j := 0;
    while j < 4
      invariant 0 <= j <= 4
      invariant MoveInv(g, d, out, grid, 4 * i + j, moved)
    {
      if At(grid, v, i, j) != newLine[j] {
        WriteStep(g, d, out, grid, i, j, moved);
        moved := true;
        grid := SetAt(grid, v, i, j, newLine[j]);
      } else {
        SkipStep(g, d, out, grid, i, j, moved);
      }
      j := j + 1;
    }
  }

  /** One pass of the outer loop of `move`: read line `i` out of the grid
      being updated, run the callback on it, add its gain, and write it back. */
  method MoveLine(g: Grid, d: Direction, ghost out: seq<seq<nat>>, grid0: Grid, gain0: nat,
                  moved0: bool, i: nat)
    returns (grid: Grid, gain: nat, moved: bool)
    requires MoveInv(g, d, out, grid0, 4 * i, moved0) && i < 4
    requires gain0 == GainUpTo(g, d, i)
    ensures MoveInv(g, d, out, grid, 4 * (i + 1), moved)
    ensures gain == GainUpTo(g, d, i + 1)
  {
    var line := LineOf(grid0, Vertical(d), i);
    LineUnwritten(g, d, out, grid0, i, moved0);
    var newLine, lineGain := RunCallback(d, line);
    gain := gain0 + lineGain;
    grid, moved := WriteLine(g, d, out, grid0, i, newLine, moved0);
  }

  /** `move(callback, isVertical)`: the grid after the write-back, the score
      the callbacks added, and whether any cell was rewritten. */
  method MoveLines(g: Grid, d: Direction) returns (grid: Grid, gain: nat, moved: bool)
    requires Shaped(g)
    ensures MoveResult(grid, gain, moved) == Move(g, d)
  {
    ghost var out := Outputs(g, d);
    grid, gain, moved := g, 0, false;
    var i := 0;
    while i < 4
      invariant 0 <= i <= 4
      invariant MoveInv(g, d, out, grid, 4 * i, moved)
      invariant gain == GainUpTo(g, d, i)
    {
      grid, gain, moved := MoveLine(g, d, out, grid, gain, moved, i);
      i := i + 1;
    }
    MoveDone(g, d, out, grid, moved);
    GainUpToAll(g, d);
  }
}
