/** The line compaction at the heart of 2048: one row or column of the grid,
    read toward the compaction target, loses its empty cells, merges adjacent
    equal tiles (each tile at most once) and is padded back to four cells.

    The merge is described twice. `LeftPlan` and `RightPlan` follow the
    forward and the backward scans of the game's callbacks step by step; the
    predicates `Valid`, `GreedyLeft` and `GreedyRight` say, independently of
    any scan, which groupings of the input tiles are acceptable outputs. The
    lemmas connect the two. */
module Line {

  /** One cell of the compacted line, remembering where it came from:
      a single input tile carried over, or two equal input tiles merged. */
  datatype Tile = Kept(v: nat) | Merged(v: nat)

  /** The result of one callback: the new line and what it adds to the score. */
  datatype Slide = Slide(line: seq<nat>, gain: nat)

  /** The number shown on the output cell. */
  function Value(t: Tile): nat {
    match t
    case Kept(v) => v
    case Merged(v) => 2 * v
  }

  /** The input tiles an output cell consumed, in line order. */
  function Sources(t: Tile): seq<nat> {
    match t
    case Kept(v) => [v]
    case Merged(v) => [v, v]
  }

  /** All input tiles a plan consumed: undoing every merge. */
  function Flatten(p: seq<Tile>): seq<nat> {
    if p == [] then [] else Sources(p[0]) + Flatten(p[1..])
  }

  /** The cell values a plan produces. */
  function Values(p: seq<Tile>): (r: seq<nat>)
    ensures |r| == |p|
  {
    if p == [] then [] else [Value(p[0])] + Values(p[1..])
  }

  /** The score a plan earns: the sum of the doubled values it produces. */
  function Gain(p: seq<Tile>): nat {
    if p == [] then 0
    else (if p[0].Merged? then Value(p[0]) else 0) + Gain(p[1..])
  }

  /** The number of merges in a plan. */
  function Merges(p: seq<Tile>): nat {
    if p == [] then 0 else (if p[0].Merged? then 1 else 0) + Merges(p[1..])
  }

  function Sum(s: seq<nat>): nat {
    if s == [] then 0 else s[0] + Sum(s[1..])
  }

  function Reverse<T>(s: seq<T>): (r: seq<T>)
    ensures |r| == |s|
    ensures forall i :: 0 <= i < |s| ==> r[i] == s[|s| - 1 - i]
  {
    if s == [] then [] else Reverse(s[1..]) + [s[0]]
  }

  function Zeros(n: nat): (r: seq<nat>)
    ensures |r| == n
    ensures forall i :: 0 <= i < n ==> r[i] == 0
  {
    seq(n, _ => 0)
  }

  /** The line with its empty cells removed, order kept (`row.filter(cell => cell !== 0)`). */
  function NonZero(s: seq<nat>): seq<nat> {
    if s == [] then []
    else (if s[0] == 0 then [] else [s[0]]) + NonZero(s[1..])
  }

  /** `while (newRow.length < 4) newRow.push(0)` */
  function PadEnd(s: seq<nat>): seq<nat> {
    if |s| < 4 then s + Zeros(4 - |s|) else s
  }

  /** `while (newRow.length < 4) newRow.unshift(0)` */
  function PadStart(s: seq<nat>): seq<nat> {
    if |s| < 4 then Zeros(4 - |s|) + s else s
  }

  /** Every output cell is either a kept tile, or two EQUAL input tiles
      merged, and undoing the merges gives back the input. A merged tile
      stands for exactly two inputs, so no tile merges twice. */
  predicate Valid(p: seq<Tile>, s: seq<nat>) {
    Flatten(p) == s
  }

  /** The grouping a left-to-right scan produces: a tile is kept only when
      it differs from the next input tile (which is where the next output
      cell starts). */
  predicate GreedyLeft(p: seq<Tile>) {
    forall k :: 0 <= k < |p| - 1 && p[k].Kept? ==> p[k].v != p[k + 1].v
  }

  /** The grouping a right-to-left scan produces: a tile is kept only when
      it differs from the input tile just before it. */
  predicate GreedyRight(p: seq<Tile>) {
    forall k :: 0 < k < |p| && p[k].Kept? ==> p[k].v != p[k - 1].v
  }

  /** Nonzero cells come before zero cells. */
  predicate ZerosLast(s: seq<nat>) {
    forall i, j :: 0 <= i < j < |s| && s[i] == 0 ==> s[j] == 0
  }

  /** Zero cells come before nonzero cells. */
  predicate ZerosFirst(s: seq<nat>) {
    forall i, j :: 0 <= i < j < |s| && s[j] == 0 ==> s[i] == 0
  }

  predicate AllNonZero(s: seq<nat>) {
    forall i :: 0 <= i < |s| ==> s[i] != 0
  }

  predicate IsPow2(n: nat)
    decreases n
  {
    if n == 1 then true
    else if n < 2 || n % 2 == 1 then false
    else IsPow2(n / 2)
  }

  /** The value of a cell in a well-formed game: empty, or a power of two. */
  predicate IsCellValue(n: nat) {
    n == 0 || IsPow2(n)
  }

  predicate AllCellValues(s: seq<nat>) {
    forall i :: 0 <= i < |s| ==> IsCellValue(s[i])
  }

  /** The forward scan of moveLeft/moveUp: compare each tile with the next
      one, merge on equality, and continue after the merged pair. */
  function LeftPlan(s: seq<nat>): seq<Tile>
    decreases |s|
  {
    if |s| == 0 then []
    else if |s| == 1 then [Kept(s[0])]
    else if s[0] == s[1] then [Merged(s[0])] + LeftPlan(s[2..])
    else [Kept(s[0])] + LeftPlan(s[1..])
  }

  /** The backward scan of moveRight/moveDown: compare each tile with the
      previous one, merge on equality, and continue before the merged pair. */
  function RightPlan(s: seq<nat>): seq<Tile>
    decreases |s|
  {
    var n := |s|;
    if n == 0 then []
    else if n == 1 then [Kept(s[0])]
    else if s[n - 1] == s[n - 2] then RightPlan(s[..n - 2]) + [Merged(s[n - 1])]
    else RightPlan(s[..n - 1]) + [Kept(s[n - 1])]
  }

  /** The forward scan groups the tiles validly and greedily from the left. */
  lemma {:induction false} LeftPlanGreedy(s: seq<nat>)
    ensures Valid(LeftPlan(s), s)
    ensures GreedyLeft(LeftPlan(s))
    decreases |s|
  {
    if |s| >= 2 {
      var tail := if s[0] == s[1] then s[2..] else s[1..];
      LeftPlanGreedy(tail);
      FirstSource(LeftPlan(tail));
      assert s == (if s[0] == s[1] then [s[0], s[1]] else [s[0]]) + tail;
    }
  }

  /** Undoing the backward scan's merges gives back its input. */
  lemma {:induction false} RightPlanValid(s: seq<nat>)
    ensures Valid(RightPlan(s), s)
    decreases |s|
  {
    var n := |s|;
    if n >= 2 {
      var k := if s[n - 1] == s[n - 2] then n - 2 else n - 1;
      var last := if s[n - 1] == s[n - 2] then Merged(s[n - 1]) else Kept(s[n - 1]);
      RightPlanValid(s[..k]);
      RightPlanLast(s);
      SnocValid(RightPlan(s[..k]), s[..k], last);
      assert s[k..] == Sources(last);
      assert s == s[..k] + s[k..];
    }
  }

  /** The backward scan's last tile, and the part of the line it leaves to scan. */
  lemma RightPlanLast(s: seq<nat>)
    requires |s| >= 2
    ensures var n := |s|;
            if s[n - 1] == s[n - 2] then RightPlan(s) == RightPlan(s[..n - 2]) + [Merged(s[n - 1])]
            else RightPlan(s) == RightPlan(s[..n - 1]) + [Kept(s[n - 1])]
  {
  }

  /** Appending a tile to a valid plan of `head` gives a valid plan of
      `head` followed by the tile's sources. */
  lemma SnocValid(p: seq<Tile>, head: seq<nat>, t: Tile)
    requires Valid(p, head)
    ensures Valid(p + [t], head + Sources(t))
  {
    FlattenAppend(p, [t]);
    assert Flatten([t]) == Sources(t) + Flatten([]);
  }

  /** The backward scan groups the tiles validly and greedily from the right. */
  lemma {:induction false} RightPlanGreedy(s: seq<nat>)
    ensures Valid(RightPlan(s), s)
    ensures GreedyRight(RightPlan(s))
    decreases |s|
  {
    RightPlanValid(s);
    var n := |s|;
    if n >= 2 {
      var head := if s[n - 1] == s[n - 2] then s[..n - 2] else s[..n - 1];
      var last := if s[n - 1] == s[n - 2] then Merged(s[n - 1]) else Kept(s[n - 1]);
      var p := RightPlan(head);
      RightPlanGreedy(head);
      LastSource(p);
      assert RightPlan(s) == p + [last];
      if last.Kept? && p != [] {
        assert Flatten(p) == head && head[|head| - 1] == s[n - 2];
      }
    }
  }

  /** The Left/Up callback (script.js moveLeft): filter, merge forward, pad at the end. */
  function SlideLeft(line: seq<nat>): (r: Slide)
    ensures |line| <= 4 ==> |r.line| == 4
    ensures ZerosLast(r.line)
    ensures Sum(r.line) == Sum(line)
    ensures r.gain % 2 == 0 && r.gain <= Sum(line)
    ensures |NonZero(r.line)| <= |NonZero(line)|
    ensures r.gain > 0 <==> |NonZero(r.line)| < |NonZero(line)|
  {
    var s := NonZero(line);
    var p := LeftPlan(s);
    var out := PadEnd(Values(p));
    LeftPlanGreedy(s);
    NonZeroFacts(line);
    PlanFacts(p, s);
    ValuesNonZero(p);
    PadEndFacts(Values(p));
    SumNonZero(line);
    Slide(out, Gain(p))
  }

  /** The Right/Down callback (script.js moveRight): filter, merge backward, pad at the start. */
  function SlideRight(line: seq<nat>): (r: Slide)
    ensures |line| <= 4 ==> |r.line| == 4
    ensures ZerosFirst(r.line)
    ensures Sum(r.line) == Sum(line)
    ensures r.gain % 2 == 0 && r.gain <= Sum(line)
    ensures |NonZero(r.line)| <= |NonZero(line)|
    ensures r.gain > 0 <==> |NonZero(r.line)| < |NonZero(line)|
  {
    var s := NonZero(line);
    var p := RightPlan(s);
    var out := PadStart(Values(p));
    RightPlanGreedy(s);
    NonZeroFacts(line);
    PlanFacts(p, s);
    ValuesNonZero(p);
    PadStartFacts(Values(p));
    SumNonZero(line);
    Slide(out, Gain(p))
  }

  // ---------------------------------------------------------------------
  // Sequence facts

  lemma {:induction false} SumAppend(a: seq<nat>, b: seq<nat>)
    ensures Sum(a + b) == Sum(a) + Sum(b)
    decreases |a|
  {
    if a == [] {
      assert a + b == b;
    } else {
      assert (a + b)[1..] == a[1..] + b;
      SumAppend(a[1..], b);
    }
  }

  lemma SumZeros(n: nat)
    ensures Sum(Zeros(n)) == 0
    decreases n
  {
    if n > 0 {
      assert Zeros(n)[1..] == Zeros(n - 1);
      SumZeros(n - 1);
    }
  }

  lemma {:induction false} NonZeroAppend(a: seq<nat>, b: seq<nat>)
    ensures NonZero(a + b) == NonZero(a) + NonZero(b)
    decreases |a|
  {
    if a == [] {
      assert a + b == b;
    } else {
      assert (a + b)[1..] == a[1..] + b;
      NonZeroAppend(a[1..], b);
    }
  }

  lemma NonZeroZeros(n: nat)
    ensures NonZero(Zeros(n)) == []
    decreases n
  {
    if n > 0 {
      assert Zeros(n)[1..] == Zeros(n - 1);
      NonZeroZeros(n - 1);
    }
  }

  lemma {:induction false} NonZeroOfNonZero(s: seq<nat>)
    requires AllNonZero(s)
    ensures NonZero(s) == s
    decreases |s|
  {
    if s != [] {
      NonZeroOfNonZero(s[1..]);
    }
  }

  /** The filter keeps exactly the nonzero entries: it is no longer than
      the line, holds no zero, and keeps the sum. */
  lemma {:induction false} NonZeroFacts(s: seq<nat>)
    ensures |NonZero(s)| <= |s|
    ensures AllNonZero(NonZero(s))
    decreases |s|
  {
    if s != [] {
      NonZeroFacts(s[1..]);
    }
  }

  lemma {:induction false} SumNonZero(s: seq<nat>)
    ensures Sum(NonZero(s)) == Sum(s)
    decreases |s|
  {
    if s != [] {
      SumNonZero(s[1..]);
      SumAppend(if s[0] == 0 then [] else [s[0]], NonZero(s[1..]));
    }
  }

  lemma {:induction false} ReverseAppend<T>(a: seq<T>, b: seq<T>)
    ensures Reverse(a + b) == Reverse(b) + Reverse(a)
  {
    assert Reverse(a + b) == Reverse(b) + Reverse(a);
  }

  lemma ReverseReverse<T>(s: seq<T>)
    ensures Reverse(Reverse(s)) == s
  {
    assert Reverse(Reverse(s)) == s;
  }

  lemma {:induction false} NonZeroReverse(s: seq<nat>)
    ensures NonZero(Reverse(s)) == Reverse(NonZero(s))
    decreases |s|
  {
    if s != [] {
      var head := if s[0] == 0 then [] else [s[0]];
      assert Reverse(s) == Reverse(s[1..]) + [s[0]];
      NonZeroAppend(Reverse(s[1..]), [s[0]]);
      assert NonZero([s[0]]) == head;
      NonZeroReverse(s[1..]);
      ReverseAppend(head, NonZero(s[1..]));
      assert Reverse(head) == head;
    }
  }

  // ---------------------------------------------------------------------
  // Plan facts

  lemma {:induction false} FlattenAppend(a: seq<Tile>, b: seq<Tile>)
    ensures Flatten(a + b) == Flatten(a) + Flatten(b)
    decreases |a|
  {
    if a == [] {
      assert a + b == b;
    } else {
      assert (a + b)[1..] == a[1..] + b;
      FlattenAppend(a[1..], b);
    }
  }

  lemma {:induction false} ValuesAppend(a: seq<Tile>, b: seq<Tile>)
    ensures Values(a + b) == Values(a) + Values(b)
    decreases |a|
  {
    if a == [] {
      assert a + b == b;
    } else {
      assert (a + b)[1..] == a[1..] + b;
      ValuesAppend(a[1..], b);
    }
  }

  /** Cell `i` of a plan's output is the value of its tile `i`. */
  lemma {:induction false} ValuesIndex(p: seq<Tile>)
    ensures forall i :: 0 <= i < |p| ==> Values(p)[i] == Value(p[i])
    decreases |p|
  {
    if p != [] {
      ValuesIndex(p[1..]);
    }
  }

  /** A line of at most one tile scans to itself, in either direction. */
  lemma ShortPlans(s: seq<nat>)
    requires |s| <= 1
    ensures Values(LeftPlan(s)) == s && Gain(LeftPlan(s)) == 0
    ensures Values(RightPlan(s)) == s && Gain(RightPlan(s)) == 0
  {
  }

  lemma {:induction false} GainAppend(a: seq<Tile>, b: seq<Tile>)
    ensures Gain(a + b) == Gain(a) + Gain(b)
    decreases |a|
  {
    if a == [] {
      assert a + b == b;
    } else {
      assert (a + b)[1..] == a[1..] + b;
      GainAppend(a[1..], b);
    }
  }

  lemma {:induction false} MergesAppend(a: seq<Tile>, b: seq<Tile>)
    ensures Merges(a + b) == Merges(a) + Merges(b)
    decreases |a|
  {
    if a == [] {
      assert a + b == b;
    } else {
      assert (a + b)[1..] == a[1..] + b;
      MergesAppend(a[1..], b);
    }
  }

  /** The first input tile a non-empty plan consumed is its first tile's source. */
  lemma FirstSource(p: seq<Tile>)
    ensures p != [] ==> Flatten(p) != [] && Flatten(p)[0] == p[0].v
  {
  }

  /** The last input tile a non-empty plan consumed is its last tile's source. */
  lemma {:induction false} LastSource(p: seq<Tile>)
    ensures p != [] ==> Flatten(p) != [] && Flatten(p)[|Flatten(p)| - 1] == p[|p| - 1].v
    decreases |p|
  {
    if p != [] {
      if |p| > 1 {
        LastSource(p[1..]);
      }
    }
  }

  /** What every plan of a line satisfies, whichever scan made it: undoing
      the merges restores the tiles, each merge removes exactly one tile,
      the sum of the cells is kept, and the score is the sum of the merged
      cells (an even number, and positive as soon as one merge happened on
      nonzero tiles). */
  lemma {:induction false} PlanFacts(p: seq<Tile>, s: seq<nat>)
    requires Valid(p, s)
    ensures |s| == |p| + Merges(p)
    ensures Sum(Values(p)) == Sum(s)
    ensures Gain(p) % 2 == 0 && Gain(p) <= Sum(s)
    ensures AllNonZero(s) ==> (Gain(p) > 0 <==> Merges(p) > 0)
    decreases |p|
  {
    if p != [] {
      var rest := Flatten(p[1..]);
      assert s == Sources(p[0]) + rest;
      PlanFacts(p[1..], rest);
      SumAppend(Sources(p[0]), rest);
      assert Values(p) == [Value(p[0])] + Values(p[1..]);
      SumAppend([Value(p[0])], Values(p[1..]));
      if AllNonZero(s) {
        assert s[0] == p[0].v;
        assert forall i :: 0 <= i < |rest| ==> rest[i] == s[i + |Sources(p[0])|];
      }
    }
  }

  /** A plan of nonzero tiles produces nonzero cells. */
  lemma {:induction false} ValuesNonZero(p: seq<Tile>)
    requires AllNonZero(Flatten(p))
    ensures AllNonZero(Values(p))
    decreases |p|
  {
    if p != [] {
      var rest := Flatten(p[1..]);
      assert Flatten(p) == Sources(p[0]) + rest;
      assert Flatten(p)[0] == p[0].v;
      assert forall i :: 0 <= i < |rest| ==> rest[i] == Flatten(p)[i + |Sources(p[0])|];
      ValuesNonZero(p[1..]);
    }
  }

  /** A plan of empty-or-power-of-two tiles produces such cells. */
  lemma {:induction false} ValuesCellValues(p: seq<Tile>)
    requires AllCellValues(Flatten(p))
    ensures AllCellValues(Values(p))
    decreases |p|
  {
    if p != [] {
      var rest := Flatten(p[1..]);
      assert Flatten(p) == Sources(p[0]) + rest;
      assert IsCellValue(p[0].v) by { assert Flatten(p)[0] == p[0].v; }
      assert forall i :: 0 <= i < |rest| ==> rest[i] == Flatten(p)[i + |Sources(p[0])|];
      ValuesCellValues(p[1..]);
      if p[0].Merged? && p[0].v != 0 {
        assert IsPow2(2 * p[0].v) by { assert (2 * p[0].v) / 2 == p[0].v; }
      }
    }
  }

  lemma PadEndFacts(s: seq<nat>)
    requires AllNonZero(s)
    ensures |s| <= 4 ==> |PadEnd(s)| == 4
    ensures ZerosLast(PadEnd(s))
    ensures NonZero(PadEnd(s)) == s
    ensures Sum(PadEnd(s)) == Sum(s)
  {
    NonZeroOfNonZero(s);
    if |s| < 4 {
      NonZeroAppend(s, Zeros(4 - |s|));
      NonZeroZeros(4 - |s|);
      SumAppend(s, Zeros(4 - |s|));
      SumZeros(4 - |s|);
    }
  }

  lemma PadStartFacts(s: seq<nat>)
    requires AllNonZero(s)
    ensures |s| <= 4 ==> |PadStart(s)| == 4
    ensures ZerosFirst(PadStart(s))
    ensures NonZero(PadStart(s)) == s
    ensures Sum(PadStart(s)) == Sum(s)
  {
    NonZeroOfNonZero(s);
    if |s| < 4 {
      NonZeroAppend(Zeros(4 - |s|), s);
      NonZeroZeros(4 - |s|);
      SumAppend(Zeros(4 - |s|), s);
      SumZeros(4 - |s|);
    }
  }
}
