/** The move callbacks as the game writes them: a filter, an in-place scan
    that doubles a tile and splices its partner out, and a padding loop.
    Each is proved to compute the functional `SlideLeft` / `SlideRight`. */
module Scan {
  import opened Line

  /** A merge at the front of the unscanned part `t` of the line. */
  lemma LeftMergeStep(t: seq<nat>)
    requires |t| >= 2 && t[0] == t[1]
    ensures Values(LeftPlan(t)) == [2 * t[0]] + Values(LeftPlan(t[2..]))
    ensures Gain(LeftPlan(t)) == 2 * t[0] + Gain(LeftPlan(t[2..]))
  {
    assert LeftPlan(t) == [Merged(t[0])] + LeftPlan(t[2..]);
    ValuesAppend([Merged(t[0])], LeftPlan(t[2..]));
  }

  /** No merge at the front of the unscanned part `t` of the line. */
  lemma LeftKeepStep(t: seq<nat>)
    requires |t| >= 2 && t[0] != t[1]
    ensures Values(LeftPlan(t)) == [t[0]] + Values(LeftPlan(t[1..]))
    ensures Gain(LeftPlan(t)) == Gain(LeftPlan(t[1..]))
  {
    assert LeftPlan(t) == [Kept(t[0])] + LeftPlan(t[1..]);
    ValuesAppend([Kept(t[0])], LeftPlan(t[1..]));
  }

  lemma RightMergeUnfold(t: seq<nat>)
    requires |t| >= 2 && t[|t| - 1] == t[|t| - 2]
    ensures RightPlan(t) == RightPlan(t[..|t| - 2]) + [Merged(t[|t| - 1])]
  {
  }

  lemma RightKeepUnfold(t: seq<nat>)
    requires |t| >= 2 && t[|t| - 1] != t[|t| - 2]
    ensures RightPlan(t) == RightPlan(t[..|t| - 1]) + [Kept(t[|t| - 1])]
  {
  }

  /** A merge at the back of the unscanned part `t` of the line. */
  lemma RightMergeStep(t: seq<nat>)
    requires |t| >= 2 && t[|t| - 1] == t[|t| - 2]
    ensures Values(RightPlan(t)) == Values(RightPlan(t[..|t| - 2])) + [2 * t[|t| - 1]]
    ensures Gain(RightPlan(t)) == Gain(RightPlan(t[..|t| - 2])) + 2 * t[|t| - 1]
  {
    var rest := RightPlan(t[..|t| - 2]);
    var last := [Merged(t[|t| - 1])];
    RightMergeUnfold(t);
    ValuesAppend(rest, last);
    GainAppend(rest, last);
  }

  /** No merge at the back of the unscanned part `t` of the line. */
  lemma RightKeepStep(t: seq<nat>)
    requires |t| >= 2 && t[|t| - 1] != t[|t| - 2]
    ensures Values(RightPlan(t)) == Values(RightPlan(t[..|t| - 1])) + [t[|t| - 1]]
    ensures Gain(RightPlan(t)) == Gain(RightPlan(t[..|t| - 1]))
  {
    var rest := RightPlan(t[..|t| - 1]);
    var last := [Kept(t[|t| - 1])];
    RightKeepUnfold(t);
    ValuesAppend(rest, last);
    GainAppend(rest, last);
  }

  /** The loop invariant of the forward scan: the line before index `i` is
      final, the line from `i` on is still to be scanned, and `gain` holds
      the score of the merges made so far. */
  ghost predicate ForwardInv(nz: seq<nat>, row: seq<nat>, i: int, gain: nat) {
    && 0 <= i <= |row|
    && row[..i] + Values(LeftPlan(row[i..])) == Values(LeftPlan(nz))
    && gain + Gain(LeftPlan(row[i..])) == Gain(LeftPlan(nz))
  }

  /** `newRow[i] *= 2; score += newRow[i]; newRow.splice(i + 1, 1); i++` keeps the invariant. */
  lemma ForwardMerge(nz: seq<nat>, row: seq<nat>, i: int, gain: nat)
    requires ForwardInv(nz, row, i, gain) && i + 1 < |row| && row[i] == row[i + 1]
    ensures var u := row[i := row[i] * 2];
            ForwardInv(nz, u[..i + 1] + u[i + 2..], i + 1, gain + u[i])
  {
    var u := row[i := row[i] * 2];
    var t := row[i..];
    LeftMergeStep(t);
    var r := u[..i + 1] + u[i + 2..];
    assert r[..i + 1] == row[..i] + [2 * t[0]];
    assert r[i + 1..] == t[2..];
  }

  /** Unequal neighbours: `i++` alone keeps the invariant. */
  lemma ForwardKeep(nz: seq<nat>, row: seq<nat>, i: int, gain: nat)
    requires ForwardInv(nz, row, i, gain) && i + 1 < |row| && row[i] != row[i + 1]
    ensures ForwardInv(nz, row, i + 1, gain)
  {
    var t := row[i..];
    LeftKeepStep(t);
    assert row[..i + 1] == row[..i] + [t[0]];
    assert row[i + 1..] == t[1..];
  }

  /** At most one tile left to scan: the line is final. */
  lemma ForwardDone(nz: seq<nat>, row: seq<nat>, i: int, gain: nat)
    requires ForwardInv(nz, row, i, gain) && i >= |row| - 1
    ensures row == Values(LeftPlan(nz)) && gain == Gain(LeftPlan(nz))
  {
    ShortPlans(row[i..]);
    assert row[..i] + row[i..] == row;
  }

  /** The merge loop of the Left/Up callback, on the filtered line. The scan
      index `i` runs forward; on a merge the tile at `i` doubles, the tile
      at `i + 1` is spliced out, and the loop's own increment steps past the
      merged tile. */
  method MergeForward(nz: seq<nat>) returns (newRow: seq<nat>, gain: nat)
    ensures newRow == Values(LeftPlan(nz))
    ensures gain == Gain(LeftPlan(nz))
  {
    newRow := nz;
    gain := 0;
    var i := 0;
    assert newRow[..0] == [] && newRow[0..] == nz;
    while i < |newRow| - 1
      invariant ForwardInv(nz, newRow, i, gain)
      decreases |newRow| - i
    {
      if newRow[i] == newRow[i + 1] {
        ForwardMerge(nz, newRow, i, gain);
        newRow := newRow[i := newRow[i] * 2];
        gain := gain + newRow[i];
        newRow := newRow[..i + 1] + newRow[i + 2..];
      } else {
        ForwardKeep(nz, newRow, i, gain);
      }
      i := i + 1;
    }
    ForwardDone(nz, newRow, i, gain);
  }

  /** The loop invariant of the backward scan: the line after index `i` is
      final, the line up to `i` is still to be scanned, and `gain` holds the
      score of the merges made so far. */
  ghost predicate BackwardInv(nz: seq<nat>, row: seq<nat>, i: int, gain: nat) {
    && -1 <= i < |row|
    && Values(RightPlan(row[..i + 1])) + row[i + 1..] == Values(RightPlan(nz))
    && Gain(RightPlan(row[..i + 1])) + gain == Gain(RightPlan(nz))
  }

  /** `newRow[i] *= 2; score += newRow[i]; newRow.splice(i - 1, 1); i--; i--`
      keeps the invariant: the merged tile now sits at `i - 1` and is final. */
  lemma BackwardMerge(nz: seq<nat>, row: seq<nat>, i: int, gain: nat)
    requires BackwardInv(nz, row, i, gain) && i > 0 && row[i] == row[i - 1]
    ensures var u := row[i := row[i] * 2];
            BackwardInv(nz, u[..i - 1] + u[i..], i - 2, gain + u[i])
  {
    var u := row[i := row[i] * 2];
    var t := row[..i + 1];
    RightMergeStep(t);
    var r := u[..i - 1] + u[i..];
    assert r[..i - 1] == t[..|t| - 2];
    assert r[i - 1..] == [2 * row[i]] + row[i + 1..];
  }

  /** Unequal neighbours: `i--` alone keeps the invariant. */
  lemma BackwardKeep(nz: seq<nat>, row: seq<nat>, i: int, gain: nat)
    requires BackwardInv(nz, row, i, gain) && i > 0 && row[i] != row[i - 1]
    ensures BackwardInv(nz, row, i - 1, gain)
  {
    var t := row[..i + 1];
    RightKeepStep(t);
    assert row[..i] == t[..|t| - 1];
    assert row[i..] == [row[i]] + row[i + 1..];
  }

  /** At most one tile left to scan: the line is final. */
  lemma BackwardDone(nz: seq<nat>, row: seq<nat>, i: int, gain: nat)
    requires BackwardInv(nz, row, i, gain) && i <= 0
    ensures row == Values(RightPlan(nz)) && gain == Gain(RightPlan(nz))
  {
    ShortPlans(row[..i + 1]);
    assert row[..i + 1] + row[i + 1..] == row;
  }

  /** The merge loop of the Right/Down callback, on the filtered line. The
      scan index `i` runs backward from the last tile; on a merge the tile
      at `i` doubles, the tile at `i - 1` is spliced out (the merged tile
      moves to `i - 1`), and the extra `i--` together with the loop's own
      `i--` steps past it. */
  method MergeBackward(nz: seq<nat>) returns (newRow: seq<nat>, gain: nat)
    ensures newRow == Values(RightPlan(nz))
    ensures gain == Gain(RightPlan(nz))
  {
    newRow := nz;
    gain := 0;
    var i: int := |newRow| - 1;
    assert newRow[..i + 1] == nz && newRow[i + 1..] == [];
    while i > 0
      invariant BackwardInv(nz, newRow, i, gain)
      decreases i + 1
    {
      if newRow[i] == newRow[i - 1] {
        BackwardMerge(nz, newRow, i, gain);
        newRow := newRow[i := newRow[i] * 2];
        gain := gain + newRow[i];
        newRow := newRow[..i - 1] + newRow[i..];
        i := i - 1;
      } else {
        BackwardKeep(nz, newRow, i, gain);
      }
      i := i - 1;
    }
    BackwardDone(nz, newRow, i, gain);
  }

  /** `while (newRow.length < 4) newRow.push(0)` */
  method PushZeros(out: seq<nat>) returns (newRow: seq<nat>)
    ensures newRow == PadEnd(out)
  {
    newRow := out;
    while |newRow| < 4
      invariant newRow == out + Zeros(|newRow| - |out|)
      invariant |out| <= |newRow|
      invariant |out| >= 4 ==> newRow == out
      invariant |out| < 4 ==> |newRow| <= 4
      decreases 4 - |newRow|
    {
      newRow := newRow + [0];
    }
  }

  /** `while (newRow.length < 4) newRow.unshift(0)` */
  method UnshiftZeros(out: seq<nat>) returns (newRow: seq<nat>)
    ensures newRow == PadStart(out)
  {
    newRow := out;
    while |newRow| < 4
      invariant newRow == Zeros(|newRow| - |out|) + out
      invariant |out| <= |newRow|
      invariant |out| >= 4 ==> newRow == out
      invariant |out| < 4 ==> |newRow| <= 4
      decreases 4 - |newRow|
    {
      newRow := [0] + newRow;
    }
  }

  /** The Left/Up callback: filter out the empty cells, merge forward, then
      push zeros until the line has four cells again. */
  method LeftCallback(row: seq<nat>) returns (newRow: seq<nat>, gain: nat)
    ensures newRow == SlideLeft(row).line
    ensures gain == SlideLeft(row).gain
  {
    var nz := NonZero(row);
    var merged;
    merged, gain := MergeForward(nz);
    newRow := PushZeros(merged);
  }

  /** The Right/Down callback: filter out the empty cells, merge backward,
      then unshift zeros until the line has four cells again. */
  method RightCallback(row: seq<nat>) returns (newRow: seq<nat>, gain: nat)
    ensures newRow == SlideRight(row).line
    ensures gain == SlideRight(row).gain
  {
    var nz := NonZero(row);
    var merged;
    merged, gain := MergeBackward(nz);
    newRow := UnshiftZeros(merged);
  }
}
