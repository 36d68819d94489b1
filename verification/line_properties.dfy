/** Properties of the line compaction: the scans produce the only greedy
    grouping of the tiles, Right is Left seen in a mirror, which lines a
    callback leaves alone, and the worked examples of the game's rules. */
module LineProperties {
  import opened Line

  /** No two neighbouring cells hold the same nonzero tile. */
  predicate NoEqualNeighbours(s: seq<nat>) {
    forall i :: 0 <= i < |s| - 1 && s[i] != 0 ==> s[i] != s[i + 1]
  }

  // ---------------------------------------------------------------------
  // The scans are the unique greedy groupings

  /** A valid, left-greedy grouping of the tiles is the one the forward scan
      builds: the forward scan is fully determined by "merge as early as
      possible, each tile at most once". */
  lemma {:induction false} LeftPlanUnique(s: seq<nat>, p: seq<Tile>)
    requires Valid(p, s) && GreedyLeft(p)
    ensures p == LeftPlan(s)
    decreases |p|
  {
    if p != [] {
      var rest := p[1..];
      assert s == Sources(p[0]) + Flatten(rest);
      assert GreedyLeft(rest) by {
        forall k | 0 <= k < |rest| - 1 && rest[k].Kept?
          ensures rest[k].v != rest[k + 1].v
        {
          assert p[k + 1] == rest[k] && p[k + 2] == rest[k + 1];
        }
      }
      FirstSource(rest);
      match p[0]
      case Merged(v) =>
        assert s[2..] == Flatten(rest);
        LeftPlanUnique(s[2..], rest);
      case Kept(v) =>
        assert s[1..] == Flatten(rest);
        if rest != [] {
          assert s[1] == rest[0].v;
          assert p[0].v != p[1].v;
        }
        LeftPlanUnique(s[1..], rest);
    }
  }

  lemma ReverseSources(t: Tile)
    ensures Reverse(Sources(t)) == Sources(t)
  {
    match t
    case Kept(v) =>
    case Merged(v) =>
      assert Reverse([v, v]) == [v, v];
  }

  /** Undoing the merges of a mirrored plan gives the mirrored tiles. */
  lemma {:induction false} FlattenReverse(p: seq<Tile>)
    ensures Flatten(Reverse(p)) == Reverse(Flatten(p))
    decreases |p|
  {
    if p != [] {
      var t, rest := p[0], p[1..];
      assert Reverse(p) == Reverse(rest) + [t];
      assert Flatten(p) == Sources(t) + Flatten(rest);
      assert Flatten([t]) == Sources(t) + Flatten([]);
      FlattenAppend(Reverse(rest), [t]);
      FlattenReverse(rest);
      ReverseSources(t);
      ReverseAppend(Sources(t), Flatten(rest));
    }
  }

  lemma ValuesReverse(p: seq<Tile>)
    ensures Values(Reverse(p)) == Reverse(Values(p))
  {
    ValuesIndex(p);
    ValuesIndex(Reverse(p));
  }

  lemma {:induction false} GainReverse(p: seq<Tile>)
    ensures Gain(Reverse(p)) == Gain(p)
    decreases |p|
  {
    if p != [] {
      assert Reverse(p) == Reverse(p[1..]) + [p[0]];
      GainAppend(Reverse(p[1..]), [p[0]]);
      GainReverse(p[1..]);
    }
  }

  /** Mirroring a right-greedy plan gives a left-greedy one. */
  lemma GreedyRightReverse(q: seq<Tile>)
    requires GreedyRight(q)
    ensures GreedyLeft(Reverse(q))
  {
    var r := Reverse(q);
    forall k | 0 <= k < |r| - 1 && r[k].Kept?
      ensures r[k].v != r[k + 1].v
    {
      var j := |q| - 1 - k;
      assert r[k] == q[j] && r[k + 1] == q[j - 1];
    }
  }

  /** Mirroring a left-greedy plan gives a right-greedy one. */
  lemma GreedyLeftReverse(p: seq<Tile>)
    requires GreedyLeft(p)
    ensures GreedyRight(Reverse(p))
  {
    var r := Reverse(p);
    forall k | 0 < k < |r| && r[k].Kept?
      ensures r[k].v != r[k - 1].v
    {
      var j := |p| - 1 - k;
      assert r[k] == p[j] && r[k - 1] == p[j + 1];
    }
  }

  /** A valid, right-greedy grouping is the one the backward scan builds. */
  lemma RightPlanUnique(s: seq<nat>, q: seq<Tile>)
    requires Valid(q, s) && GreedyRight(q)
    ensures q == RightPlan(s)
  {
    var rs := RightPlan(s);
    RightPlanGreedy(s);
    FlattenReverse(q);
    FlattenReverse(rs);
    GreedyRightReverse(q);
    GreedyRightReverse(rs);
    LeftPlanUnique(Reverse(s), Reverse(q));
    LeftPlanUnique(Reverse(s), Reverse(rs));
    ReverseReverse(q);
    ReverseReverse(rs);
  }

  /** The backward scan is the forward scan run on the mirrored tiles. */
  lemma RightPlanMirror(s: seq<nat>)
    ensures RightPlan(s) == Reverse(LeftPlan(Reverse(s)))
  {
    var p := LeftPlan(Reverse(s));
    LeftPlanGreedy(Reverse(s));
    FlattenReverse(p);
    ReverseReverse(s);
    GreedyLeftReverse(p);
    RightPlanUnique(s, Reverse(p));
  }

  lemma PadReverse(s: seq<nat>)
    ensures PadStart(Reverse(s)) == Reverse(PadEnd(s))
  {
    if |s| < 4 {
      ReverseAppend(s, Zeros(4 - |s|));
      assert Reverse(Zeros(4 - |s|)) == Zeros(4 - |s|);
    }
  }

  // ---------------------------------------------------------------------
  // The callbacks against the independent description

  /** Left/Up: the callback's line is the padded output of ANY valid
      left-greedy grouping of the nonzero tiles, and its score is that
      grouping's merged total. */
  lemma SlideLeftSpec(line: seq<nat>, p: seq<Tile>)
    requires Valid(p, NonZero(line)) && GreedyLeft(p)
    ensures SlideLeft(line) == Slide(PadEnd(Values(p)), Gain(p))
  {
    LeftPlanUnique(NonZero(line), p);
  }

  /** Right/Down: the same with right-greedy groupings, padded at the start. */
  lemma SlideRightSpec(line: seq<nat>, q: seq<Tile>)
    requires Valid(q, NonZero(line)) && GreedyRight(q)
    ensures SlideRight(line) == Slide(PadStart(Values(q)), Gain(q))
  {
    RightPlanUnique(NonZero(line), q);
  }

  /** Mirror symmetry: the Right callback on a line is the Left callback on
      the reversed line, reversed back, with the same score. */
  lemma SlideRightMirror(line: seq<nat>)
    ensures SlideRight(line).line == Reverse(SlideLeft(Reverse(line)).line)
    ensures SlideRight(line).gain == SlideLeft(Reverse(line)).gain
  {
    var s := NonZero(line);
    NonZeroReverse(line);
    RightPlanMirror(s);
    var p := LeftPlan(Reverse(s));
    ValuesReverse(p);
    PadReverse(Values(p));
    GainReverse(p);
  }

  /** The number of nonzero cells falls by exactly the number of merges. */
  lemma SlideLeftCounts(line: seq<nat>)
    ensures |NonZero(SlideLeft(line).line)| + Merges(LeftPlan(NonZero(line))) == |NonZero(line)|
  {
    var p := LeftPlan(NonZero(line));
    LeftPlanGreedy(NonZero(line));
    PlanFacts(p, NonZero(line));
    NonZeroFacts(line);
    ValuesNonZero(p);
    PadEndFacts(Values(p));
  }

  lemma SlideRightCounts(line: seq<nat>)
    ensures |NonZero(SlideRight(line).line)| + Merges(RightPlan(NonZero(line))) == |NonZero(line)|
  {
    var p := RightPlan(NonZero(line));
    RightPlanGreedy(NonZero(line));
    PlanFacts(p, NonZero(line));
    NonZeroFacts(line);
    ValuesNonZero(p);
    PadStartFacts(Values(p));
  }

  // ---------------------------------------------------------------------
  // Powers of two

  lemma {:induction false} NonZeroCellValues(s: seq<nat>)
    requires AllCellValues(s)
    ensures AllCellValues(NonZero(s))
    decreases |s|
  {
    if s != [] {
      NonZeroCellValues(s[1..]);
    }
  }

  lemma ZerosCellValues(n: nat)
    ensures AllCellValues(Zeros(n))
  {
  }

  /** Cells that were empty or powers of two stay empty or powers of two. */
  lemma SlideLeftCellValues(line: seq<nat>)
    requires AllCellValues(line)
    ensures AllCellValues(SlideLeft(line).line)
  {
    NonZeroCellValues(line);
    LeftPlanGreedy(NonZero(line));
    ValuesCellValues(LeftPlan(NonZero(line)));
    ZerosCellValues(4);
  }

  lemma SlideRightCellValues(line: seq<nat>)
    requires AllCellValues(line)
    ensures AllCellValues(SlideRight(line).line)
  {
    NonZeroCellValues(line);
    RightPlanGreedy(NonZero(line));
    ValuesCellValues(RightPlan(NonZero(line)));
    ZerosCellValues(4);
  }

  // ---------------------------------------------------------------------
  // Lines a callback leaves unchanged

  /** A plan without merges keeps every tile as it was. */
  lemma {:induction false} NoMergesKeepsTiles(p: seq<Tile>)
    requires Merges(p) == 0
    ensures Values(p) == Flatten(p)
    ensures forall k :: 0 <= k < |p| ==> p[k].Kept?
    decreases |p|
  {
    if p != [] {
      NoMergesKeepsTiles(p[1..]);
      assert forall k :: 1 <= k < |p| ==> p[k] == p[1..][k - 1];
    }
  }

  /** A filter that drops nothing met no zero. */
  lemma {:induction false} NonZeroKeepsAll(s: seq<nat>)
    requires |NonZero(s)| == |s|
    ensures NonZero(s) == s
    decreases |s|
  {
    if s != [] {
      NonZeroFacts(s[1..]);
      NonZeroKeepsAll(s[1..]);
    }
  }

  /** A callback whose output has no empty cell merged nothing and moved
      nothing: the line is returned as it was. */
  lemma SlideLeftFullOutput(line: seq<nat>)
    requires |line| == 4 && AllNonZero(SlideLeft(line).line)
    ensures SlideLeft(line).line == line
  {
    var s := NonZero(line);
    var p := LeftPlan(s);
    NonZeroOfNonZero(SlideLeft(line).line);
    NonZeroFacts(line);
    SlideLeftCounts(line);
    LeftPlanGreedy(s);
    NoMergesKeepsTiles(p);
    NonZeroKeepsAll(line);
  }

  lemma SlideRightFullOutput(line: seq<nat>)
    requires |line| == 4 && AllNonZero(SlideRight(line).line)
    ensures SlideRight(line).line == line
  {
    var s := NonZero(line);
    var p := RightPlan(s);
    NonZeroOfNonZero(SlideRight(line).line);
    NonZeroFacts(line);
    SlideRightCounts(line);
    RightPlanGreedy(s);
    NoMergesKeepsTiles(p);
    NonZeroKeepsAll(line);
  }

  /** Distinct neighbours: the forward scan merges nothing. */
  lemma {:induction false} LeftPlanDistinct(s: seq<nat>)
    requires forall i :: 0 <= i < |s| - 1 ==> s[i] != s[i + 1]
    ensures Values(LeftPlan(s)) == s
    decreases |s|
  {
    if |s| >= 2 {
      LeftPlanDistinct(s[1..]);
      assert s == [s[0]] + s[1..];
    }
  }

  lemma {:induction false} AllZeroNonZero(s: seq<nat>)
    requires forall i :: 0 <= i < |s| ==> s[i] == 0
    ensures NonZero(s) == [] && s == Zeros(|s|)
    decreases |s|
  {
    if s != [] {
      AllZeroNonZero(s[1..]);
    }
  }

  /** A line whose zeros are all at the end is its tiles followed by zeros. */
  lemma {:induction false} ZerosLastSplit(s: seq<nat>)
    requires ZerosLast(s)
    ensures |NonZero(s)| <= |s|
    ensures s == NonZero(s) + Zeros(|s| - |NonZero(s)|)
    decreases |s|
  {
    if s != [] {
      if s[0] == 0 {
        AllZeroNonZero(s);
      } else {
        ZerosLastSplit(s[1..]);
        assert s == [s[0]] + s[1..];
      }
    }
  }

  /** A packed line without equal neighbours is left as it is. */
  lemma SlideLeftKeepsPacked(line: seq<nat>)
    requires |line| == 4 && ZerosLast(line) && NoEqualNeighbours(line)
    ensures SlideLeft(line).line == line
  {
    var s := NonZero(line);
    NonZeroFacts(line);
    ZerosLastSplit(line);
    assert forall i :: 0 <= i < |s| ==> s[i] == line[i];
    LeftPlanDistinct(s);
  }

  /** A line Left/Up leave as it is was packed, had no equal neighbours,
      and earned nothing. */
  lemma SlideLeftUnchanged(line: seq<nat>)
    requires |line| == 4 && SlideLeft(line).line == line
    ensures ZerosLast(line) && NoEqualNeighbours(line)
    ensures SlideLeft(line).gain == 0
  {
    var s := NonZero(line);
    var p := LeftPlan(s);
    LeftPlanGreedy(s);
    NonZeroFacts(line);
    PlanFacts(p, s);
    NoMergesKeepsTiles(p);
    ValuesIndex(p);
    ValuesNonZero(p);
    PadEndFacts(Values(p));
    assert line == s + Zeros(4 - |s|);
    forall i | 0 <= i < |line| - 1 && line[i] != 0
      ensures line[i] != line[i + 1]
    {
      if i + 1 < |s| {
        assert p[i].Kept?;
      }
    }
  }

  /** Left/Up leave a line unchanged exactly when its tiles are already
      packed at the start and no two neighbouring tiles are equal; such a
      line earns nothing. */
  lemma SlideLeftFixed(line: seq<nat>)
    requires |line| == 4
    ensures SlideLeft(line).line == line <==> ZerosLast(line) && NoEqualNeighbours(line)
    ensures SlideLeft(line).line == line ==> SlideLeft(line).gain == 0
  {
    if ZerosLast(line) && NoEqualNeighbours(line) {
      SlideLeftKeepsPacked(line);
    }
    if SlideLeft(line).line == line {
      SlideLeftUnchanged(line);
    }
  }

  lemma ZerosFirstReverse(line: seq<nat>)
    ensures ZerosFirst(line) <==> ZerosLast(Reverse(line))
  {
    var rl := Reverse(line);
    var n := |line|;
    if ZerosFirst(line) {
      forall i, j | 0 <= i < j < n && rl[i] == 0 ensures rl[j] == 0 {
        assert rl[i] == line[n - 1 - i] && rl[j] == line[n - 1 - j];
      }
    }
    if ZerosLast(rl) {
      forall i, j | 0 <= i < j < n && line[j] == 0 ensures line[i] == 0 {
        assert rl[n - 1 - j] == line[j] && rl[n - 1 - i] == line[i];
      }
    }
  }

  lemma NoEqualNeighboursReverse(line: seq<nat>)
    ensures NoEqualNeighbours(line) <==> NoEqualNeighbours(Reverse(line))
  {
    var rl := Reverse(line);
    var n := |line|;
    if NoEqualNeighbours(line) {
      forall i | 0 <= i < n - 1 && rl[i] != 0 ensures rl[i] != rl[i + 1] {
        assert rl[i] == line[n - 1 - i] && rl[i + 1] == line[n - 2 - i];
      }
    }
    if NoEqualNeighbours(rl) {
      forall i | 0 <= i < n - 1 && line[i] != 0 ensures line[i] != line[i + 1] {
        assert line[i] == rl[n - 1 - i] && line[i + 1] == rl[n - 2 - i];
      }
    }
  }

  /** Right/Down leave a line unchanged exactly when its tiles are already
      packed at the end and no two neighbouring tiles are equal; such a line
      earns nothing. */
  lemma SlideRightFixed(line: seq<nat>)
    requires |line| == 4
    ensures SlideRight(line).line == line <==> ZerosFirst(line) && NoEqualNeighbours(line)
    ensures SlideRight(line).line == line ==> SlideRight(line).gain == 0
  {
    var rl := Reverse(line);
    SlideRightMirror(line);
    SlideLeftFixed(rl);
    ReverseReverse(line);
    ReverseReverse(SlideLeft(rl).line);
    ZerosFirstReverse(line);
    NoEqualNeighboursReverse(line);
  }

  // ---------------------------------------------------------------------
  // The rules on concrete lines

  /** Four equal tiles merge pairwise, not into one. */
  lemma FourEqualTilesLeft()
    ensures SlideLeft([2, 2, 2, 2]) == Slide([4, 4, 0, 0], 8)
  {
    assert NonZero([2, 2, 2, 2]) == [2, 2, 2, 2];
    assert LeftPlan([2, 2, 2, 2]) == [Merged(2)] + LeftPlan([2, 2]);
  }

  /** The backward scan pairs the same four tiles from the other end. */
  lemma FourEqualTilesRight()
    ensures SlideRight([2, 2, 2, 2]) == Slide([0, 0, 4, 4], 8)
  {
    assert NonZero([2, 2, 2, 2]) == [2, 2, 2, 2];
    assert [2, 2, 2, 2][..2] == [2, 2];
    assert RightPlan([2, 2, 2, 2]) == RightPlan([2, 2]) + [Merged(2)];
  }

  /** A freshly merged tile does not merge again in the same move. */
  lemma NoCascade()
    ensures SlideLeft([2, 2, 4, 0]) == Slide([4, 4, 0, 0], 4)
  {
    assert NonZero([2, 2, 4, 0]) == [2, 2, 4];
  }

  /** A gap between equal tiles does not stop them merging. */
  lemma GapClosed()
    ensures SlideLeft([0, 2, 2, 0]) == Slide([4, 0, 0, 0], 4)
    ensures SlideRight([0, 2, 2, 0]) == Slide([0, 0, 0, 4], 4)
  {
    assert NonZero([0, 2, 2, 0]) == [2, 2];
    assert LeftPlan([2, 2]) == [Merged(2)];
    assert RightPlan([2, 2]) == [Merged(2)];
  }
}
