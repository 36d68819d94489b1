/** The game state and the two entry points that change it: `reset` (the
    New Game button, and the end of a lost game) and `handleInput` (a key
    press). Every `Math.random()` the call would make is a parameter. */
module Play {
  import opened Line
  import opened Board
  import opened Spawn
  import opened GameOver
  import MoveLoop

  datatype Option<T> = None | Some(value: T)

  /** The grid and the score of one game. */
  datatype State = State(grid: Grid, score: nat)

  /** A result of `Math.random()`. Each `addRandomTile` consumes two: the
      first picks the empty cell, the second the tile value. */
  predicate Draw(r: real) {
    0.0 <= r < 1.0
  }

  /** The `event.key` that selects each direction. */
  function KeyName(d: Direction): string {
    match d
    case Up => "ArrowUp"
    case Down => "ArrowDown"
    case Left => "ArrowLeft"
    case Right => "ArrowRight"
  }

  /** The `switch (event.key)` of `handleInput`: the four arrow keys select
      a direction; any other key selects nothing. */
  function KeyDirection(key: string): (d: Option<Direction>)
    ensures d.Some? ==> KeyName(d.value) == key
  {
    if key == "ArrowUp" then Some(Up)
    else if key == "ArrowDown" then Some(Down)
    else if key == "ArrowLeft" then Some(Left)
    else if key == "ArrowRight" then Some(Right)
    else None
  }

  /** Each direction's key selects that direction, so the switch is the
      inverse of the key names. */
  lemma KeyRoundTrip(d: Direction)
    ensures KeyDirection(KeyName(d)) == Some(d)
  {
  }

  /** Parity, counted down by twos. `Line` states the gain's parity with
      `% 2`, the form a reader expects in a callback's contract; the lemmas
      here chain parity through sums of many terms, which the solver handles
      far more cheaply on this recursive form. `GainEven` converts one into
      the other. */
  predicate Even(n: nat)
    decreases n
  {
    if n < 2 then n == 0 else Even(n - 2)
  }

  /** A state the game can be in between key presses: well-formed cells, a
      tile on the board, the game not over, and an even score and total. */
  predicate Live(s: State) {
    && WellFormed(s.grid)
    && HasTile(s.grid)
    && !Over(s.grid)
    && Even(s.score)
    && Even(GridSum(s.grid))
  }

  /** `reset` (also what the constructor and `init` do): the grid is
      cleared, the score set to 0, and two tiles added. The old state `s`
      is the one `reset` overwrites; none of it survives (`ResetCells`). */
  function Reset(s: State, c1: real, v1: real, c2: real, v2: real): (r: State)
    requires Draw(c1) && Draw(v1) && Draw(c2) && Draw(v2)
    ensures r.score == 0 && Shaped(r.grid)
  {
    var g1 := AddRandomTile(Cleared(s.grid), c1, v1);
    State(AddRandomTile(g1, c2, v2), 0)
  }

  /** The first tile of a reset lands on the empty grid, leaving fifteen cells free. */
  lemma FirstTile(g: Grid, c1: real, v1: real)
    requires Draw(c1) && Draw(v1)
    ensures |EmptyCells(AddRandomTile(Cleared(g), c1, v1))| == 15
  {
    ClearedCells(g);
    FullIffNoEmptyCells(Cleared(g));
    SpawnFillsOne(Cleared(g), c1, v1);
  }

  /** A reset leaves exactly two tiles, so fourteen empty cells. */
  lemma ResetCells(s: State, c1: real, v1: real, c2: real, v2: real)
    requires Draw(c1) && Draw(v1) && Draw(c2) && Draw(v2)
    ensures |EmptyCells(Reset(s, c1, v1, c2, v2).grid)| == 14
  {
    var g1 := AddRandomTile(Cleared(s.grid), c1, v1);
    FirstTile(s.grid, c1, v1);
    FullIffNoEmptyCells(g1);
    SpawnFillsOne(g1, c2, v2);
  }

  /** Every cell after a reset is empty, a 2 or a 4. */
  lemma ResetValues(s: State, c1: real, v1: real, c2: real, v2: real)
    requires Draw(c1) && Draw(v1) && Draw(c2) && Draw(v2)
    ensures var g := Reset(s, c1, v1, c2, v2).grid;
            forall x, y :: 0 <= x < 4 && 0 <= y < 4 ==> g[x][y] == 0 || g[x][y] == 2 || g[x][y] == 4
  {
    var g0 := Cleared(s.grid);
    var g1 := AddRandomTile(g0, c1, v1);
    var g2 := AddRandomTile(g1, c2, v2);
    SpawnCells(g0, c1, v1);
    SpawnCells(g1, c2, v2);
    forall x, y | 0 <= x < 4 && 0 <= y < 4
      ensures g2[x][y] == 0 || g2[x][y] == 2 || g2[x][y] == 4
    {
      assert g0[x][y] == 0;
      assert g1[x][y] == 0 || g1[x][y] == 2 || g1[x][y] == 4;
    }
  }

  /** Both tiles of a reset are powers of two on an empty grid. */
  lemma ResetWellFormed(s: State, c1: real, v1: real, c2: real, v2: real)
    requires Draw(c1) && Draw(v1) && Draw(c2) && Draw(v2)
    ensures WellFormed(Reset(s, c1, v1, c2, v2).grid)
  {
    var g0 := Cleared(s.grid);
    SpawnKeepsWellFormed(g0, c1, v1);
    SpawnKeepsWellFormed(AddRandomTile(g0, c1, v1), c2, v2);
  }

  /** The second tile of a reset lands on a grid with room, so the grid holds a tile. */
  lemma ResetHasTile(s: State, c1: real, v1: real, c2: real, v2: real)
    requires Draw(c1) && Draw(v1) && Draw(c2) && Draw(v2)
    ensures HasTile(Reset(s, c1, v1, c2, v2).grid)
  {
    var g1 := AddRandomTile(Cleared(s.grid), c1, v1);
    FirstTile(s.grid, c1, v1);
    FullIffNoEmptyCells(g1);
    AddRandomTileSpec(g1, c2, v2);
    var p := Chosen(g1, c2);
    assert AddRandomTile(g1, c2, v2)[p.x][p.y] != 0;
  }

  /** Fourteen empty cells: the game is not over after a reset. */
  lemma ResetNotOver(s: State, c1: real, v1: real, c2: real, v2: real)
    requires Draw(c1) && Draw(v1) && Draw(c2) && Draw(v2)
    ensures !Over(Reset(s, c1, v1, c2, v2).grid)
  {
    ResetCells(s, c1, v1, c2, v2);
    FullIffNoEmptyCells(Reset(s, c1, v1, c2, v2).grid);
  }

  /** The cells of a reset grid add up to the two new tiles. */
  lemma ResetSum(s: State, c1: real, v1: real, c2: real, v2: real)
    requires Draw(c1) && Draw(v1) && Draw(c2) && Draw(v2)
    ensures GridSum(Reset(s, c1, v1, c2, v2).grid) == NewTile(v1) + NewTile(v2)
  {
    var g0 := Cleared(s.grid);
    var g1 := AddRandomTile(g0, c1, v1);
    FirstTile(s.grid, c1, v1);
    ClearedCells(s.grid);
    FullIffNoEmptyCells(g0);
    FullIffNoEmptyCells(g1);
    SpawnAddsTile(g0, c1, v1);
    SpawnAddsTile(g1, c2, v2);
    Sum4(g0[0]); Sum4(g0[1]); Sum4(g0[2]); Sum4(g0[3]);
  }

  /** A reset starts a live game. */
  lemma ResetLive(s: State, c1: real, v1: real, c2: real, v2: real)
    requires Draw(c1) && Draw(v1) && Draw(c2) && Draw(v2)
    ensures Live(Reset(s, c1, v1, c2, v2))
  {
    var r := Reset(s, c1, v1, c2, v2);
    ResetWellFormed(s, c1, v1, c2, v2);
    ResetHasTile(s, c1, v1, c2, v2);
    ResetNotOver(s, c1, v1, c2, v2);
    ResetSum(s, c1, v1, c2, v2);
    TwoTilesEven(v1, v2);
    LiveIntro(r.grid, r.score);
  }

  lemma LiveIntro(g: Grid, score: nat)
    requires WellFormed(g) && HasTile(g) && !Over(g)
    requires Even(score) && Even(GridSum(g))
    ensures Live(State(g, score))
  {
  }

  /** `handleInput`: the key's move rewrites the grid and adds its gain to
      the score (both happen inside `move`, moved or not); if something
      moved a tile is spawned, and if the game is then over it is reset. */
  function HandleInput(s: State, key: string, cell: real, value: real, c1: real, v1: real, c2: real, v2: real): (r: State)
    requires Shaped(s.grid) && Draw(cell) && Draw(value) && Draw(c1) && Draw(v1) && Draw(c2) && Draw(v2)
    ensures Shaped(r.grid)
    ensures KeyDirection(key).None? ==> r == s
    ensures KeyDirection(key).Some? && !Move(s.grid, KeyDirection(key).value).moved ==> r == s
  {
    match KeyDirection(key)
    case None => s
    case Some(d) =>
      var m := Move(s.grid, d);
      NoOpMove(s.grid, d);
      var after := State(m.grid, s.score + m.gain);
      if !m.moved then after
      else
        var spawned := State(AddRandomTile(after.grid, cell, value), after.score);
        if Over(spawned.grid) then Reset(spawned, c1, v1, c2, v2) else spawned
  }

  /** Once the game is over no key changes anything. */
  lemma OverIgnoresInput(s: State, key: string, cell: real, value: real, c1: real, v1: real, c2: real, v2: real)
    requires Shaped(s.grid) && Over(s.grid)
    requires Draw(cell) && Draw(value) && Draw(c1) && Draw(v1) && Draw(c2) && Draw(v2)
    ensures HandleInput(s, key, cell, value, c1, v1, c2, v2) == s
  {
    if KeyDirection(key).Some? {
      OverNoMove(s.grid, KeyDirection(key).value);
    }
  }

  /** Even numbers are closed under addition. */
  lemma {:induction false} EvenSum(a: nat, b: nat, c: nat)
    requires Even(a) && Even(b) && c == a + b
    ensures Even(c)
    decreases a
  {
    if a >= 2 {
      EvenSum(a - 2, b, c - 2);
    }
  }

  /** Twice any number is even. */
  lemma {:induction false} EvenDouble(k: nat)
    ensures Even(2 * k)
  {
    if k > 0 {
      EvenDouble(k - 1);
      assert 2 * k - 2 == 2 * (k - 1);
    }
  }

  /** Every new tile is even. */
  lemma TileEven(v: real)
    ensures Even(NewTile(v))
  {
    assert Even(2) && Even(4);
  }

  /** Two new tiles add up to an even number. */
  lemma TwoTilesEven(v1: real, v2: real)
    ensures Even(NewTile(v1) + NewTile(v2))
  {
    TileEven(v1);
    TileEven(v2);
    EvenSum(NewTile(v1), NewTile(v2), NewTile(v1) + NewTile(v2));
  }

  /** The score a move earns is even: every merge adds a doubled tile. */
  lemma GainEven(g: Grid, d: Direction)
    requires Shaped(g)
    ensures Even(TotalGain(g, d))
  {
    var v := Vertical(d);
    var a := Callback(d, LineOf(g, v, 0)).gain;
    var b := Callback(d, LineOf(g, v, 1)).gain;
    var c := Callback(d, LineOf(g, v, 2)).gain;
    var e := Callback(d, LineOf(g, v, 3)).gain;
    assert a == 2 * (a / 2) && b == 2 * (b / 2) && c == 2 * (c / 2) && e == 2 * (e / 2);
    assert TotalGain(g, d) == 2 * (a / 2 + b / 2 + c / 2 + e / 2);
    EvenDouble(a / 2 + b / 2 + c / 2 + e / 2);
  }

  /** An even total plus a new tile is even. */
  lemma AddTileEven(a: nat, v: real, t: nat)
    requires Even(a) && t == a + NewTile(v)
    ensures Even(t)
  {
    TileEven(v);
    EvenSum(a, NewTile(v), t);
  }

  /** After a move that changed something, the spawn finds room: the new
      grid is well formed, holds a tile, and its total is the old total
      plus the new tile. */
  lemma SpawnAfterMove(g: Grid, d: Direction, cell: real, value: real)
    requires WellFormed(g) && Draw(cell) && Move(g, d).moved
    ensures var h := AddRandomTile(Move(g, d).grid, cell, value);
            && WellFormed(h) && HasTile(h)
            && GridSum(h) == GridSum(g) + NewTile(value)
  {
    var m := Move(g, d).grid;
    MoveKeepsWellFormed(g, d);
    MovedLeavesRoom(g, d);
    SpawnKeepsWellFormed(m, cell, value);
    SpawnHasTile(m, cell, value);
    MoveKeepsSum(g, d);
    SpawnAddsTile(m, cell, value);
  }

  /** The score after a move stays even: it grows by the move's even gain. */
  lemma MovedScoreEven(score: nat, g: Grid, d: Direction)
    requires Shaped(g) && Even(score)
    ensures Even(score + TotalGain(g, d))
  {
    GainEven(g, d);
    EvenSum(score, TotalGain(g, d), score + TotalGain(g, d));
  }

  /** A move that changed something leaves a well-formed grid with room
      for the new tile and the same, even, total. */
  lemma MovedGrid(g: Grid, d: Direction)
    requires WellFormed(g) && Even(GridSum(g)) && Move(g, d).moved
    ensures var m := Move(g, d).grid;
            WellFormed(m) && !Full(m) && Even(GridSum(m))
  {
    MoveKeepsWellFormed(g, d);
    MovedLeavesRoom(g, d);
    MoveKeepsSum(g, d);
  }

  /** A spawn on a well-formed grid with room and an even total gives a live
      state whenever the game is not then over. */
  lemma SpawnLive(m: Grid, score: nat, cell: real, value: real)
    requires WellFormed(m) && !Full(m) && Even(GridSum(m)) && Even(score) && Draw(cell)
    requires !Over(AddRandomTile(m, cell, value))
    ensures Live(State(AddRandomTile(m, cell, value), score))
  {
    var h := AddRandomTile(m, cell, value);
    SpawnKeepsWellFormed(m, cell, value);
    SpawnHasTile(m, cell, value);
    SpawnAddsTile(m, cell, value);
    AddTileEven(GridSum(m), value, GridSum(h));
    LiveIntro(h, score);
  }

  /** The state `handleInput` leaves when the key moves tiles and the game
      is not then over: the moved grid with its new tile, and the score
      plus the move's gain. */
  lemma MovedInputState(s: State, d: Direction, cell: real, value: real, c1: real, v1: real, c2: real, v2: real)
    requires Shaped(s.grid) && Draw(cell) && Draw(value) && Draw(c1) && Draw(v1) && Draw(c2) && Draw(v2)
    requires Move(s.grid, d).moved
    requires !Over(AddRandomTile(Move(s.grid, d).grid, cell, value))
    ensures HandleInput(s, KeyName(d), cell, value, c1, v1, c2, v2)
            == State(AddRandomTile(Move(s.grid, d).grid, cell, value), s.score + Move(s.grid, d).gain)
  {
    KeyRoundTrip(d);
  }

  /** The state `handleInput` leaves when the key moves tiles and the spawn
      ends the game: the reset of the spawned state, so the grid holds two
      fresh tiles and the score is 0, whatever the move earned. */
  lemma MovedInputOver(s: State, d: Direction, cell: real, value: real, c1: real, v1: real, c2: real, v2: real)
    requires Shaped(s.grid) && Draw(cell) && Draw(value) && Draw(c1) && Draw(v1) && Draw(c2) && Draw(v2)
    requires Move(s.grid, d).moved
    requires Over(AddRandomTile(Move(s.grid, d).grid, cell, value))
    ensures HandleInput(s, KeyName(d), cell, value, c1, v1, c2, v2)
            == Reset(State(AddRandomTile(Move(s.grid, d).grid, cell, value), s.score + Move(s.grid, d).gain), c1, v1, c2, v2)
  {
    KeyRoundTrip(d);
  }

  /** When a key moves tiles and the game goes on (the state is the one
      `MovedInputState` describes), the cells' total grows by exactly the
      new tile (2 or 4) and the game stays live. */
  lemma MovedInputContinues(s: State, d: Direction, cell: real, value: real)
    requires WellFormed(s.grid) && Even(s.score) && Even(GridSum(s.grid)) && Draw(cell)
    requires Move(s.grid, d).moved
    requires !Over(AddRandomTile(Move(s.grid, d).grid, cell, value))
    ensures var r := State(AddRandomTile(Move(s.grid, d).grid, cell, value), s.score + Move(s.grid, d).gain);
            && GridSum(r.grid) == GridSum(s.grid) + NewTile(value)
            && Live(r)
  {
    var m := Move(s.grid, d);
    var score := s.score + m.gain;
    SpawnAfterMove(s.grid, d, cell, value);
    MovedGrid(s.grid, d);
    MovedScoreEven(s.score, s.grid, d);
    SpawnLive(m.grid, score, cell, value);
  }

  /** Every key press takes a live game to a live game: moves and spawns keep
      the cells powers of two and the totals even, and a game that ends is
      reset at once (`MovedInputOver`), which starts a live game again. */
  lemma HandleInputLive(s: State, key: string, cell: real, value: real, c1: real, v1: real, c2: real, v2: real)
    requires Live(s) && Draw(cell) && Draw(value) && Draw(c1) && Draw(v1) && Draw(c2) && Draw(v2)
    ensures Live(HandleInput(s, key, cell, value, c1, v1, c2, v2))
  {
    if KeyDirection(key).Some? {
      var d := KeyDirection(key).value;
      var m := Move(s.grid, d);
      if m.moved {
        var g := AddRandomTile(m.grid, cell, value);
        if Over(g) {
          ResetLive(State(g, s.score + m.gain), c1, v1, c2, v2);
        } else {
          assert key == KeyName(d);
          MovedInputState(s, d, cell, value, c1, v1, c2, v2);
          MovedInputContinues(s, d, cell, value);
        }
      }
    }
  }
}
