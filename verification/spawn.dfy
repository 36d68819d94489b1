/** `addRandomTile`: collect the empty cells in row-major order, pick one
    with the first random draw and give it a 2 (draw below 0.9) or a 4 with
    the second. The two draws of `Math.random()` are parameters. */
module Spawn {
  import opened Line
  import opened Board

  /** A cell position, `{x: row, y: column}`. */
  datatype Pos = Pos(x: nat, y: nat)

  /** `p` comes before `q` in the order the nested loops visit cells. */
  predicate Before(p: Pos, q: Pos) {
    p.x < q.x || (p.x == q.x && p.y < q.y)
  }

  predicate Ascending(cs: seq<Pos>) {
    forall i, j :: 0 <= i < j < |cs| ==> Before(cs[i], cs[j])
  }

  predicate InGrid(p: Pos) {
    p.x < 4 && p.y < 4
  }

  /** The empty cells of row `x` among its first `n` columns, left to right. */
  function RowEmpty(g: Grid, x: nat, n: nat): seq<Pos>
    requires Shaped(g) && x < 4 && n <= 4
  {
    if n == 0 then []
    else if g[x][n - 1] == 0 then RowEmpty(g, x, n - 1) + [Pos(x, n - 1)]
    else RowEmpty(g, x, n - 1)
  }

  /** The empty cells of the first `m` rows, in the order the loops visit them. */
  function EmptyRows(g: Grid, m: nat): seq<Pos>
    requires Shaped(g) && m <= 4
  {
    if m == 0 then [] else EmptyRows(g, m - 1) + RowEmpty(g, m - 1, 4)
  }

  /** The row's list holds exactly its empty cells among the first `n`
      columns, left to right. */
  lemma {:induction false} RowEmptySpec(g: Grid, x: nat, n: nat)
    requires Shaped(g) && x < 4 && n <= 4
    ensures var cs := RowEmpty(g, x, n);
            && (forall k :: 0 <= k < |cs| ==> cs[k].x == x && cs[k].y < n && g[x][cs[k].y] == 0)
            && (forall y :: 0 <= y < n && g[x][y] == 0 ==> Pos(x, y) in cs)
            && Ascending(cs)
  {
    if n > 0 {
      RowEmptySpec(g, x, n - 1);
    }
  }

  /** The list of the first `m` rows holds exactly their empty cells, in
      row-major order. */
  lemma {:induction false} EmptyRowsSpec(g: Grid, m: nat)
    requires Shaped(g) && m <= 4
    ensures var cs := EmptyRows(g, m);
            && (forall k :: 0 <= k < |cs| ==> InGrid(cs[k]) && cs[k].x < m && g[cs[k].x][cs[k].y] == 0)
            && (forall x, y :: 0 <= x < m && 0 <= y < 4 && g[x][y] == 0 ==> Pos(x, y) in cs)
            && Ascending(cs)
  {
    if m > 0 {
      EmptyRowsSpec(g, m - 1);
      RowEmptySpec(g, m - 1, 4);
      var front := EmptyRows(g, m - 1);
      var row := RowEmpty(g, m - 1, 4);
      assert forall i, j :: 0 <= i < |front| && 0 <= j < |row| ==> Before(front[i], row[j]);
    }
  }

  /** `emptyCells`: every empty cell once, in row-major order. */
  function EmptyCells(g: Grid): (cs: seq<Pos>)
    requires Shaped(g)
    ensures forall k :: 0 <= k < |cs| ==> InGrid(cs[k]) && g[cs[k].x][cs[k].y] == 0
    ensures forall x, y :: 0 <= x < 4 && 0 <= y < 4 && g[x][y] == 0 ==> Pos(x, y) in cs
    ensures Ascending(cs)
  {
    EmptyRowsSpec(g, 4);
    EmptyRows(g, 4)
  }

  /** No cell is empty. */
  predicate Full(g: Grid)
    requires Shaped(g)
  {
    forall x, y :: 0 <= x < 4 && 0 <= y < 4 ==> g[x][y] != 0
  }

  /** `Math.floor(r * n)` for a draw `0 <= r < 1`: an index below `n`. */
  function Pick(r: real, n: nat): (k: nat)
    requires 0.0 <= r < 1.0 && n > 0
    ensures k < n
    ensures k as real <= r * n as real < (k + 1) as real
  {
    var x := r * n as real;
    assert x < n as real;
    x.Floor
  }

  /** `Math.random() < 0.9 ? 2 : 4`. */
  function NewTile(r: real): (v: nat)
    ensures v == 2 || v == 4
    ensures v == 2 <==> r < 0.9
  {
    if r < 0.9 then 2 else 4
  }

  /** The grid with cell `p` set to `v` and every other cell kept. */
  function Put(g: Grid, p: Pos, v: nat): (h: Grid)
    requires Shaped(g) && InGrid(p)
    ensures Shaped(h) && h[p.x][p.y] == v
    ensures forall x, y :: 0 <= x < 4 && 0 <= y < 4 && (x != p.x || y != p.y) ==> h[x][y] == g[x][y]
  {
    var row: seq<nat> := g[p.x][p.y := v];
    g[p.x := row]
  }

  /** The empty cell the first draw picks: index `Math.floor(r * n)` of
      the list of the `n` empty cells. */
  function Chosen(g: Grid, cellDraw: real): (p: Pos)
    requires Shaped(g) && 0.0 <= cellDraw < 1.0 && !Full(g)
    ensures InGrid(p) && g[p.x][p.y] == 0
  {
    FullIffNoEmptyCells(g);
    var cs := EmptyCells(g);
    cs[Pick(cellDraw, |cs|)]
  }

  /** `addRandomTile` with its two draws. */
  function AddRandomTile(g: Grid, cellDraw: real, valueDraw: real): (h: Grid)
    requires Shaped(g) && 0.0 <= cellDraw < 1.0
    ensures Shaped(h)
  {
    var cs := EmptyCells(g);
    if |cs| > 0 then
      FullIffNoEmptyCells(g);
      Put(g, Chosen(g, cellDraw), NewTile(valueDraw))
    else g
  }

  /** A full grid is left as it is; otherwise the chosen empty cell gets the
      new tile and no other cell changes. */
  lemma AddRandomTileSpec(g: Grid, cellDraw: real, valueDraw: real)
    requires Shaped(g) && 0.0 <= cellDraw < 1.0
    ensures Full(g) ==> AddRandomTile(g, cellDraw, valueDraw) == g
    ensures !Full(g) ==>
              var h := AddRandomTile(g, cellDraw, valueDraw);
              var p := Chosen(g, cellDraw);
              h[p.x][p.y] == NewTile(valueDraw) &&
              forall x, y :: 0 <= x < 4 && 0 <= y < 4 && (x != p.x || y != p.y) ==> h[x][y] == g[x][y]
  {
    FullIffNoEmptyCells(g);
  }

  /** Each cell after a spawn is as before, or was empty and holds the new tile. */
  lemma SpawnCells(g: Grid, cellDraw: real, valueDraw: real)
    requires Shaped(g) && 0.0 <= cellDraw < 1.0
    ensures var h := AddRandomTile(g, cellDraw, valueDraw);
            forall x, y :: 0 <= x < 4 && 0 <= y < 4 ==>
              h[x][y] == g[x][y] || (g[x][y] == 0 && h[x][y] == NewTile(valueDraw))
  {
    AddRandomTileSpec(g, cellDraw, valueDraw);
  }

  /** The nested loops of `addRandomTile` that collect `emptyCells`. */
  method CollectEmpty(g: Grid) returns (cells: seq<Pos>)
    requires Shaped(g)
    ensures cells == EmptyCells(g)
  {
    cells := [];
    var i := 0;
    while i < 4
      invariant 0 <= i <= 4
      invariant cells == EmptyRows(g, i)
    {
      var j := 0;
      while j < 4
        invariant 0 <= j <= 4
        invariant cells == EmptyRows(g, i) + RowEmpty(g, i, j)
      {
        if g[i][j] == 0 {
          cells := cells + [Pos(i, j)];
        }
        j := j + 1;
      }
      i := i + 1;
    }
  }

  /** Every index of the list can be drawn: the draw `k / n` picks index `k`. */
  lemma PickReaches(k: nat, n: nat)
    requires k < n
    ensures 0.0 <= k as real / n as real < 1.0
    ensures Pick(k as real / n as real, n) == k
  {
    var r := k as real / n as real;
    assert r * n as real == k as real;
  }

  /** On a grid with no tiles every cell of the first `n` columns is listed. */
  lemma {:induction false} RowEmptyAllZero(g: Grid, x: nat, n: nat)
    requires Shaped(g) && x < 4 && n <= 4
    requires forall y :: 0 <= y < 4 ==> g[x][y] == 0
    ensures |RowEmpty(g, x, n)| == n
  {
    if n > 0 {
      RowEmptyAllZero(g, x, n - 1);
    }
  }

  lemma {:induction false} EmptyRowsAllZero(g: Grid, m: nat)
    requires Shaped(g) && m <= 4
    requires forall x, y :: 0 <= x < 4 && 0 <= y < 4 ==> g[x][y] == 0
    ensures |EmptyRows(g, m)| == 4 * m
  {
    if m > 0 {
      EmptyRowsAllZero(g, m - 1);
      RowEmptyAllZero(g, m - 1, 4);
    }
  }

  /** All sixteen cells of the empty grid are listed. */
  lemma ClearedCells(g: Grid)
    ensures |EmptyCells(Cleared(g))| == 16
  {
    EmptyRowsAllZero(Cleared(g), 4);
  }

  /** Filling the empty cell `p` of row `x` removes it from the row's list
      once `n` has passed its column. */
  lemma {:induction false} RowEmptyPut(g: Grid, p: Pos, v: nat, x: nat, n: nat)
    requires Shaped(g) && InGrid(p) && g[p.x][p.y] == 0 && v != 0
    requires x < 4 && n <= 4
    ensures |RowEmpty(Put(g, p, v), x, n)| ==
            |RowEmpty(g, x, n)| - (if x == p.x && p.y < n then 1 else 0)
  {
    if n > 0 {
      RowEmptyPut(g, p, v, x, n - 1);
    }
  }

  lemma {:induction false} EmptyRowsPut(g: Grid, p: Pos, v: nat, m: nat)
    requires Shaped(g) && InGrid(p) && g[p.x][p.y] == 0 && v != 0
    requires m <= 4
    ensures |EmptyRows(Put(g, p, v), m)| == |EmptyRows(g, m)| - (if p.x < m then 1 else 0)
  {
    if m > 0 {
      EmptyRowsPut(g, p, v, m - 1);
      RowEmptyPut(g, p, v, m - 1, 4);
    }
  }

  /** A spawn on a grid with room fills exactly one empty cell. */
  lemma SpawnFillsOne(g: Grid, cellDraw: real, valueDraw: real)
    requires Shaped(g) && 0.0 <= cellDraw < 1.0 && !Full(g)
    ensures |EmptyCells(AddRandomTile(g, cellDraw, valueDraw))| == |EmptyCells(g)| - 1
  {
    FullIffNoEmptyCells(g);
    EmptyRowsPut(g, Chosen(g, cellDraw), NewTile(valueDraw), 4);
  }

  /** The new tile is a power of two, so a well-formed grid stays well formed. */
  lemma SpawnKeepsWellFormed(g: Grid, cellDraw: real, valueDraw: real)
    requires WellFormed(g) && 0.0 <= cellDraw < 1.0
    ensures WellFormed(AddRandomTile(g, cellDraw, valueDraw))
  {
    var h := AddRandomTile(g, cellDraw, valueDraw);
    SpawnCells(g, cellDraw, valueDraw);
    assert IsPow2(2) && IsPow2(4);
    forall x | 0 <= x < 4
      ensures AllCellValues(h[x])
    {
      forall y | 0 <= y < 4
        ensures IsCellValue(h[x][y])
      {
        assert IsCellValue(g[x][y]);
      }
    }
  }

  /** A grid with an empty cell has something to list; a full one lists nothing. */
  lemma FullIffNoEmptyCells(g: Grid)
    requires Shaped(g)
    ensures Full(g) <==> |EmptyCells(g)| == 0
  {
    var cs := EmptyCells(g);
    if |cs| > 0 {
      assert g[cs[0].x][cs[0].y] == 0;
    }
  }

  /** Setting an empty cell of a four-cell row to `v` adds `v` to the row's total. */
  lemma RowPutSum(row: seq<nat>, y: nat, v: nat)
    requires |row| == 4 && y < 4 && row[y] == 0
    ensures Sum(row[y := v]) == Sum(row) + v
  {
    Sum4(row);
    Sum4(row[y := v]);
  }

  /** Setting an empty cell to `v` adds `v` to the total of the cells. */
  lemma PutSum(g: Grid, p: Pos, v: nat)
    requires Shaped(g) && InGrid(p) && g[p.x][p.y] == 0
    ensures GridSum(Put(g, p, v)) == GridSum(g) + v
  {
    var row: seq<nat> := g[p.x][p.y := v];
    RowPutSum(g[p.x], p.y, v);
    assert Put(g, p, v) == g[p.x := row];
  }

  /** The new tile adds its value to the total of the cells. */
  lemma SpawnAddsTile(g: Grid, cellDraw: real, valueDraw: real)
    requires Shaped(g) && 0.0 <= cellDraw < 1.0 && !Full(g)
    ensures GridSum(AddRandomTile(g, cellDraw, valueDraw)) == GridSum(g) + NewTile(valueDraw)
  {
    FullIffNoEmptyCells(g);
    PutSum(g, Chosen(g, cellDraw), NewTile(valueDraw));
  }

  /** A spawn on a grid with room leaves a tile on the grid. */
  lemma SpawnHasTile(g: Grid, cellDraw: real, valueDraw: real)
    requires Shaped(g) && 0.0 <= cellDraw < 1.0 && !Full(g)
    ensures var h := AddRandomTile(g, cellDraw, valueDraw);
            exists x, y :: 0 <= x < 4 && 0 <= y < 4 && h[x][y] != 0
  {
    AddRandomTileSpec(g, cellDraw, valueDraw);
    var p := Chosen(g, cellDraw);
    assert AddRandomTile(g, cellDraw, valueDraw)[p.x][p.y] != 0;
  }
}
