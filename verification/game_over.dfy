/** `isGameOver`: the game ends when no cell is empty and no tile equals
    its right or lower neighbour. On any grid holding a tile this is
    exactly the grid on which no direction moves anything. */
module GameOver {
  import opened Line
  import opened LineProperties
  import opened Board
  import opened Spawn
  import MoveLoop

  /** The cell at row `i`, column `j` equals its right or its lower neighbour. */
  predicate MergeAt(g: Grid, i: nat, j: nat)
    requires Shaped(g) && i < 4 && j < 4
  {
    (j < 3 && g[i][j] == g[i][j + 1]) || (i < 3 && g[i][j] == g[i + 1][j])
  }

  /** Some tile equals its right or its lower neighbour. */
  predicate HasMerge(g: Grid)
    requires Shaped(g)
  {
    exists i, j :: 0 <= i < 4 && 0 <= j < 4 && MergeAt(g, i, j)
  }

  /** The condition `isGameOver` reports. */
  predicate Over(g: Grid)
    requires Shaped(g)
  {
    Full(g) && !HasMerge(g)
  }

  predicate HasTile(g: Grid)
    requires Shaped(g)
  {
    exists i, j :: 0 <= i < 4 && 0 <= j < 4 && g[i][j] != 0
  }

  /** `isGameOver`: the first pair of loops returns false at the first empty
      cell, the second at the first tile equal to its right or lower
      neighbour; otherwise the game is over. */
  method IsGameOver(g: Grid) returns (over: bool)
    requires Shaped(g)
    ensures over <==> Over(g)
  {
    var i := 0;
    while i < 4
      invariant 0 <= i <= 4
      invariant forall x, y :: 0 <= x < i && 0 <= y < 4 ==> g[x][y] != 0
    {
      var j := 0;
      while j < 4
        invariant 0 <= j <= 4
        invariant forall x, y :: 0 <= x < i && 0 <= y < 4 ==> g[x][y] != 0
        invariant forall y :: 0 <= y < j ==> g[i][y] != 0
      {
        if g[i][j] == 0 {
          return false;
        }
        j := j + 1;
      }
      i := i + 1;
    }
    i := 0;
    while i < 4
      invariant 0 <= i <= 4
      invariant forall x, y :: 0 <= x < i && 0 <= y < 4 ==> !MergeAt(g, x, y)
    {
      var j := 0;
      while j < 4
        invariant 0 <= j <= 4
        invariant forall x, y :: 0 <= x < i && 0 <= y < 4 ==> !MergeAt(g, x, y)
        invariant forall y :: 0 <= y < j ==> !MergeAt(g, i, y)
      {
        var current := g[i][j];
        if (j < 3 && current == g[i][j + 1]) || (i < 3 && current == g[i + 1][j]) {
          assert MergeAt(g, i, j);
          return false;
        }
        j := j + 1;
      }
      i := i + 1;
    }
    return true;
  }

  /** A move along an axis whose every line the callback leaves alone
      changes nothing. */
  lemma FixedLinesNoMove(g: Grid, d: Direction)
    requires Shaped(g)
    requires forall i :: 0 <= i < 4 ==> Callback(d, LineOf(g, Vertical(d), i)).line == LineOf(g, Vertical(d), i)
    ensures !Move(g, d).moved
  {
    var m := Move(g, d).grid;
    var v := Vertical(d);
    forall a, b | 0 <= a < 4 && 0 <= b < 4
      ensures MoveLoop.At(m, v, a, b) == MoveLoop.At(g, v, a, b)
    {
    }
    MoveLoop.SameLines(m, g, v);
  }

  /** A move that changes one line along its axis reports that it moved. */
  lemma ChangedLineMoves(g: Grid, d: Direction, i: nat)
    requires Shaped(g) && i < 4
    requires Callback(d, LineOf(g, Vertical(d), i)).line != LineOf(g, Vertical(d), i)
    ensures Move(g, d).moved
  {
    var m := Move(g, d).grid;
    var v := Vertical(d);
    var b :| 0 <= b < 4 && LineOf(m, v, i)[b] != LineOf(g, v, i)[b];
    assert MoveLoop.At(m, v, i, b) != MoveLoop.At(g, v, i, b);
    MoveLoop.DiffersAlongLines(m, g, v);
  }

  /** On a finished grid every line is full and has no equal neighbours. */
  lemma OverLines(g: Grid, vertical: bool, i: nat)
    requires Shaped(g) && Over(g) && i < 4
    ensures ZerosLast(LineOf(g, vertical, i)) && ZerosFirst(LineOf(g, vertical, i))
    ensures NoEqualNeighbours(LineOf(g, vertical, i))
  {
    var line := LineOf(g, vertical, i);
    forall b | 0 <= b < 4
      ensures line[b] != 0
    {
      assert line[b] == MoveLoop.At(g, vertical, i, b);
    }
    forall b | 0 <= b < 3
      ensures line[b] != line[b + 1]
    {
      if vertical {
        assert !MergeAt(g, b, i);
      } else {
        assert !MergeAt(g, i, b);
      }
    }
  }

  /** When the game is over, no direction moves anything, so no key would
      ever spawn a tile again. */
  lemma OverNoMove(g: Grid, d: Direction)
    requires Shaped(g) && Over(g)
    ensures !Move(g, d).moved
    ensures Move(g, d).grid == g && Move(g, d).gain == 0
  {
    var v := Vertical(d);
    forall i | 0 <= i < 4
      ensures Callback(d, LineOf(g, v, i)).line == LineOf(g, v, i)
    {
      OverLines(g, v, i);
      SlideLeftFixed(LineOf(g, v, i));
      SlideRightFixed(LineOf(g, v, i));
    }
    FixedLinesNoMove(g, d);
    NoOpMove(g, d);
  }

  /** A line holding both an empty cell and a tile is changed by Left/Up or
      by Right/Down. */
  lemma MixedLineSlides(s: seq<nat>, z: nat, t: nat)
    requires |s| == 4 && z < 4 && t < 4 && s[z] == 0 && s[t] != 0
    ensures SlideLeft(s).line != s || SlideRight(s).line != s
  {
    SlideLeftFixed(s);
    SlideRightFixed(s);
    if z < t {
      assert !ZerosLast(s);
    } else {
      assert !ZerosFirst(s);
    }
  }

  /** A line with two equal neighbouring tiles is changed by Left/Up. */
  lemma PairSlides(s: seq<nat>, b: nat)
    requires |s| == 4 && b < 3 && s[b] != 0 && s[b] == s[b + 1]
    ensures SlideLeft(s).line != s
  {
    SlideLeftFixed(s);
  }

  /** A mixed line `i` along the axis of Left (or Up) means one of the two
      moves along that axis moves something. */
  lemma MixedLineMoves(g: Grid, vertical: bool, i: nat, z: nat, t: nat)
    requires Shaped(g) && i < 4 && z < 4 && t < 4
    requires LineOf(g, vertical, i)[z] == 0 && LineOf(g, vertical, i)[t] != 0
    ensures vertical ==> Move(g, Up).moved || Move(g, Down).moved
    ensures !vertical ==> Move(g, Left).moved || Move(g, Right).moved
  {
    var line := LineOf(g, vertical, i);
    MixedLineSlides(line, z, t);
    if vertical {
      if SlideLeft(line).line != line {
        ChangedLineMoves(g, Up, i);
      } else {
        ChangedLineMoves(g, Down, i);
      }
    } else {
      if SlideLeft(line).line != line {
        ChangedLineMoves(g, Left, i);
      } else {
        ChangedLineMoves(g, Right, i);
      }
    }
  }

  /** A grid that is not finished and holds a tile has a move that changes it. */
  lemma NotOverSomeMove(g: Grid)
    requires Shaped(g) && HasTile(g) && !Over(g)
    ensures exists d :: Move(g, d).moved
  {
    if !Full(g) {
      var x, y :| 0 <= x < 4 && 0 <= y < 4 && g[x][y] == 0;
      if exists c :: 0 <= c < 4 && g[x][c] != 0 {
        var c :| 0 <= c < 4 && g[x][c] != 0;
        MixedLineMoves(g, false, x, y, c);
      } else {
        var tx, ty :| 0 <= tx < 4 && 0 <= ty < 4 && g[tx][ty] != 0;
        assert g[x][ty] == 0;
        assert LineOf(g, true, ty)[x] == 0 && LineOf(g, true, ty)[tx] != 0;
        MixedLineMoves(g, true, ty, x, tx);
      }
    } else {
      var i, j :| 0 <= i < 4 && 0 <= j < 4 && MergeAt(g, i, j);
      if j < 3 && g[i][j] == g[i][j + 1] {
        PairSlides(g[i], j);
        ChangedLineMoves(g, Left, i);
      } else {
        assert LineOf(g, true, j)[i] == g[i][j] && LineOf(g, true, j)[i + 1] == g[i + 1][j];
        PairSlides(LineOf(g, true, j), i);
        ChangedLineMoves(g, Up, j);
      }
    }
  }

  /** On any grid holding a tile, `isGameOver` holds exactly when no
      direction moves anything. */
  lemma OverIffNoMove(g: Grid)
    requires Shaped(g) && HasTile(g)
    ensures Over(g) <==> forall d :: !Move(g, d).moved
  {
    if Over(g) {
      forall d
        ensures !Move(g, d).moved
      {
        OverNoMove(g, d);
      }
    } else {
      NotOverSomeMove(g);
    }
  }

  /** A move that changed something leaves an empty cell, so the tile
      `handleInput` spawns next always finds room. */
  lemma MovedLeavesRoom(g: Grid, d: Direction)
    requires Shaped(g) && Move(g, d).moved
    ensures !Full(Move(g, d).grid)
  {
    var m := Move(g, d).grid;
    var v := Vertical(d);
    if Full(m) {
      forall i | 0 <= i < 4
        ensures Callback(d, LineOf(g, v, i)).line == LineOf(g, v, i)
      {
        var out := LineOf(m, v, i);
        forall b | 0 <= b < 4
          ensures out[b] != 0
        {
          assert out[b] == MoveLoop.At(m, v, i, b);
        }
        if d == Left || d == Up {
          SlideLeftFullOutput(LineOf(g, v, i));
        } else {
          SlideRightFullOutput(LineOf(g, v, i));
        }
      }
      FixedLinesNoMove(g, d);
    }
  }
}
