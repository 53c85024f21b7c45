/** The partition of the region into thirds and halves, and the per-zone
    counts of near pixels that the pixel counter accumulates. */
module Zones {
  import opened Frame

  /** Zone indices, in the order of the source's counters and totals. */
  const LEFT_THIRD: nat := 0
  const CENTRE_THIRD: nat := 1
  const RIGHT_THIRD: nat := 2
  const LEFT_HALF: nat := 3
  const RIGHT_HALF: nat := 4

  /** The three split columns: at 1/3, 1/2 and 2/3 of the region's width. */
  datatype Lines = Lines(left: int, mid: int, right: int)

  /** The split columns for a region starting at column xStart and roiW
      columns wide: each is that fraction of the width, truncated, plus the
      offset. The third one is computed in double in the source and then
      truncated; over the reals it is the floor of roiW * 2/3. */
  function SplitLines(xStart: int, roiW: int): (ls: Lines)
    requires roiW >= 0
    ensures xStart <= ls.left <= ls.mid <= ls.right <= xStart + roiW
    ensures 3 * (ls.left - xStart) <= roiW < 3 * (ls.left - xStart + 1)
    ensures 2 * (ls.mid - xStart) <= roiW < 2 * (ls.mid - xStart + 1)
    ensures (ls.right - xStart) as real <= roiW as real * (2.0 / 3.0) < (ls.right - xStart + 1) as real
  {
    Lines(roiW / 3 + xStart, roiW / 2 + xStart, (2 * roiW) / 3 + xStart)
  }

  /** The third column x falls in, following the source's if/else chain. */
  function Third(x: int, ls: Lines): (z: nat)
    ensures z == LEFT_THIRD <==> x < ls.left
    ensures z == CENTRE_THIRD <==> ls.left <= x < ls.right
    ensures z == RIGHT_THIRD <==> ls.left <= x && ls.right <= x
  {
    if x < ls.left then LEFT_THIRD
    else if x < ls.right then CENTRE_THIRD
    else RIGHT_THIRD
  }

  /** The half column x falls in, following the same chain: the left third
      always counts toward the left half and the right third toward the right
      half; only the centre third consults the middle line. */
  function Half(x: int, ls: Lines): (z: nat)
    ensures z == LEFT_HALF || z == RIGHT_HALF
    ensures Third(x, ls) == LEFT_THIRD ==> z == LEFT_HALF
    ensures Third(x, ls) == RIGHT_THIRD ==> z == RIGHT_HALF
    ensures ls.left <= ls.mid <= ls.right ==> (z == LEFT_HALF <==> x < ls.mid)
  {
    if x < ls.left then LEFT_HALF
    else if x < ls.right then (if x < ls.mid then LEFT_HALF else RIGHT_HALF)
    else RIGHT_HALF
  }

  /** Pixels of column x add to zone z. */
  predicate InZone(z: nat, x: int, ls: Lines) {
    z == Third(x, ls) || z == Half(x, ls)
  }

  /** Pixel (y, x) adds to zone z's counter (nearOnly) or total (!nearOnly). */
  ghost predicate Counted(frame: array2<real>, fT: real, ls: Lines, z: nat, nearOnly: bool, y: int, x: int)
    reads frame
  {
    InZone(z, x, ls) && (nearOnly ==> IsNear(fT, Pixel(frame, y, x)))
  }

  /** How many pixels of row y, columns [x0, x1), add to zone z. */
  ghost function RowCount(frame: array2<real>, fT: real, ls: Lines, z: nat, nearOnly: bool,
                          y: int, x0: int, x1: int): nat
    reads frame
    decreases x1 - x0
  {
    if x1 <= x0 then 0
    else RowCount(frame, fT, ls, z, nearOnly, y, x0, x1 - 1)
         + (if Counted(frame, fT, ls, z, nearOnly, y, x1 - 1) then 1 else 0)
  }

  /** How many pixels of rows [y0, y1), columns [x0, x1), add to zone z. */
  ghost function RegionCount(frame: array2<real>, fT: real, ls: Lines, z: nat, nearOnly: bool,
                             y0: int, y1: int, x0: int, x1: int): nat
    reads frame
    decreases y1 - y0
  {
    if y1 <= y0 then 0
    else RegionCount(frame, fT, ls, z, nearOnly, y0, y1 - 1, x0, x1)
         + RowCount(frame, fT, ls, z, nearOnly, y1 - 1, x0, x1)
  }

  /** One more column of a row adds one to each zone the pixel counts for. */
  lemma RowCountStep(frame: array2<real>, fT: real, ls: Lines, y: int, x0: int, x: int, near: bool)
    requires x0 <= x
    requires near == IsNear(fT, Pixel(frame, y, x))
    ensures forall z :: RowCount(frame, fT, ls, z, true, y, x0, x + 1)
                        == RowCount(frame, fT, ls, z, true, y, x0, x) + (if near && InZone(z, x, ls) then 1 else 0)
    ensures forall z :: RowCount(frame, fT, ls, z, false, y, x0, x + 1)
                        == RowCount(frame, fT, ls, z, false, y, x0, x) + (if InZone(z, x, ls) then 1 else 0)
  {
  }

  /** An occupancy percentage as the source's float holds it: a value, or the
      NaN that 0/0 gives for a zone without pixels. */
  datatype Percent = Pct(value: real) | NaN

  /** (counter / total) * 100, with a zero total giving NaN. */
  function Percentage(near: nat, total: nat): (p: Percent)
    requires near <= total
    ensures p.NaN? <==> total == 0
    ensures p.Pct? ==> 0.0 <= p.value <= 100.0
    ensures p == Pct(100.0) <==> 0 < total == near
    ensures p == Pct(0.0) <==> 0 == near < total
  {
    if total == 0 then NaN
    else
      var share := near as real / total as real;
      assert share * total as real == near as real;
      assert share * 100.0 == 100.0 ==> share == 1.0;
      Pct(share * 100.0)
  }

  /** Zone z's percentage over the region [y0, y1) x [x0, x1). */
  ghost function ZoneScore(frame: array2<real>, fT: real, ls: Lines, z: nat,
                           y0: int, y1: int, x0: int, x1: int): Percent
    reads frame
  {
    NearAtMostTotal(frame, fT, ls, z, y0, y1, x0, x1);
    Percentage(RegionCount(frame, fT, ls, z, true, y0, y1, x0, x1),
               RegionCount(frame, fT, ls, z, false, y0, y1, x0, x1))
  }

  /** The five percentages, in the source's order. */
  ghost function Scores(frame: array2<real>, fT: real, ls: Lines,
                        y0: int, y1: int, x0: int, x1: int): seq<Percent>
    reads frame
  {
    [ZoneScore(frame, fT, ls, LEFT_THIRD, y0, y1, x0, x1),
     ZoneScore(frame, fT, ls, CENTRE_THIRD, y0, y1, x0, x1),
     ZoneScore(frame, fT, ls, RIGHT_THIRD, y0, y1, x0, x1),
     ZoneScore(frame, fT, ls, LEFT_HALF, y0, y1, x0, x1),
     ZoneScore(frame, fT, ls, RIGHT_HALF, y0, y1, x0, x1)]
  }

  lemma {:induction false} RowNearAtMostTotal(frame: array2<real>, fT: real, ls: Lines, z: nat,
                                              y: int, x0: int, x1: int)
    ensures RowCount(frame, fT, ls, z, true, y, x0, x1) <= RowCount(frame, fT, ls, z, false, y, x0, x1)
    decreases x1 - x0
  {
    if x0 < x1 {
      RowNearAtMostTotal(frame, fT, ls, z, y, x0, x1 - 1);
    }
  }

  /** A zone's counter never exceeds its total. */
  lemma {:induction false} NearAtMostTotal(frame: array2<real>, fT: real, ls: Lines, z: nat,
                                           y0: int, y1: int, x0: int, x1: int)
    ensures RegionCount(frame, fT, ls, z, true, y0, y1, x0, x1)
            <= RegionCount(frame, fT, ls, z, false, y0, y1, x0, x1)
    decreases y1 - y0
  {
    if y0 < y1 {
      NearAtMostTotal(frame, fT, ls, z, y0, y1 - 1, x0, x1);
      RowNearAtMostTotal(frame, fT, ls, z, y1 - 1, x0, x1);
    }
  }

  lemma {:induction false} RowPartition(frame: array2<real>, fT: real, ls: Lines, nearOnly: bool,
                                        y: int, x0: int, x1: int)
    requires x0 <= x1
    ensures var thirds := RowCount(frame, fT, ls, LEFT_THIRD, nearOnly, y, x0, x1)
                          + RowCount(frame, fT, ls, CENTRE_THIRD, nearOnly, y, x0, x1)
                          + RowCount(frame, fT, ls, RIGHT_THIRD, nearOnly, y, x0, x1);
            var halves := RowCount(frame, fT, ls, LEFT_HALF, nearOnly, y, x0, x1)
                          + RowCount(frame, fT, ls, RIGHT_HALF, nearOnly, y, x0, x1);
            thirds == halves && (!nearOnly ==> thirds == x1 - x0)
    decreases x1 - x0
  {
    if x0 < x1 {
      RowPartition(frame, fT, ls, nearOnly, y, x0, x1 - 1);
    }
  }

  /** Every pixel of the region adds to exactly one third and exactly one
      half: the three third-totals and the two half-totals each sum to the
      region's area, and the near counters agree the same way. */
  lemma {:induction false} ZonesPartitionRegion(frame: array2<real>, fT: real, ls: Lines, nearOnly: bool,
                                                y0: int, y1: int, x0: int, x1: int)
    requires y0 <= y1 && x0 <= x1
    ensures var thirds := RegionCount(frame, fT, ls, LEFT_THIRD, nearOnly, y0, y1, x0, x1)
                          + RegionCount(frame, fT, ls, CENTRE_THIRD, nearOnly, y0, y1, x0, x1)
                          + RegionCount(frame, fT, ls, RIGHT_THIRD, nearOnly, y0, y1, x0, x1);
            var halves := RegionCount(frame, fT, ls, LEFT_HALF, nearOnly, y0, y1, x0, x1)
                          + RegionCount(frame, fT, ls, RIGHT_HALF, nearOnly, y0, y1, x0, x1);
            thirds == halves && (!nearOnly ==> thirds == (y1 - y0) * (x1 - x0))
    decreases y1 - y0
  {
    if y0 < y1 {
      ZonesPartitionRegion(frame, fT, ls, nearOnly, y0, y1 - 1, x0, x1);
      RowPartition(frame, fT, ls, nearOnly, y1 - 1, x0, x1);
      assert (y1 - y0) * (x1 - x0) == (y1 - 1 - y0) * (x1 - x0) + (x1 - x0);
    }
  }

  lemma {:induction false} RowThirdWithinHalf(frame: array2<real>, fT: real, ls: Lines, nearOnly: bool,
                                              y: int, x0: int, x1: int)
    ensures RowCount(frame, fT, ls, LEFT_THIRD, nearOnly, y, x0, x1)
            <= RowCount(frame, fT, ls, LEFT_HALF, nearOnly, y, x0, x1)
    ensures RowCount(frame, fT, ls, RIGHT_THIRD, nearOnly, y, x0, x1)
            <= RowCount(frame, fT, ls, RIGHT_HALF, nearOnly, y, x0, x1)
    decreases x1 - x0
  {
    if x0 < x1 {
      RowThirdWithinHalf(frame, fT, ls, nearOnly, y, x0, x1 - 1);
    }
  }

  /** The left third lies inside the left half and the right third inside the
      right half, for both the counters and the totals. */
  lemma {:induction false} ThirdWithinHalf(frame: array2<real>, fT: real, ls: Lines, nearOnly: bool,
                                           y0: int, y1: int, x0: int, x1: int)
    ensures RegionCount(frame, fT, ls, LEFT_THIRD, nearOnly, y0, y1, x0, x1)
            <= RegionCount(frame, fT, ls, LEFT_HALF, nearOnly, y0, y1, x0, x1)
    ensures RegionCount(frame, fT, ls, RIGHT_THIRD, nearOnly, y0, y1, x0, x1)
            <= RegionCount(frame, fT, ls, RIGHT_HALF, nearOnly, y0, y1, x0, x1)
    decreases y1 - y0
  {
    if y0 < y1 {
      ThirdWithinHalf(frame, fT, ls, nearOnly, y0, y1 - 1, x0, x1);
      RowThirdWithinHalf(frame, fT, ls, nearOnly, y1 - 1, x0, x1);
    }
  }

  /** Every pixel of the region [y0, y1) x [x0, x1) is near. */
  ghost predicate AllNear(frame: array2<real>, fT: real, y0: int, y1: int, x0: int, x1: int)
    reads frame
  {
    forall y, x :: y0 <= y < y1 && x0 <= x < x1 ==> IsNear(fT, Pixel(frame, y, x))
  }

  /** No pixel of the region [y0, y1) x [x0, x1) is near. */
  ghost predicate NoneNear(frame: array2<real>, fT: real, y0: int, y1: int, x0: int, x1: int)
    reads frame
  {
    forall y, x :: y0 <= y < y1 && x0 <= x < x1 ==> !IsNear(fT, Pixel(frame, y, x))
  }

  lemma {:induction false} RowExtremes(frame: array2<real>, fT: real, ls: Lines, z: nat,
                                       y0: int, y1: int, y: int, x0: int, x1: int)
    requires y0 <= y < y1
    ensures AllNear(frame, fT, y0, y1, x0, x1) ==>
              RowCount(frame, fT, ls, z, true, y, x0, x1) == RowCount(frame, fT, ls, z, false, y, x0, x1)
    ensures NoneNear(frame, fT, y0, y1, x0, x1) ==> RowCount(frame, fT, ls, z, true, y, x0, x1) == 0
    decreases x1 - x0
  {
    if x0 < x1 {
      RowExtremes(frame, fT, ls, z, y0, y1, y, x0, x1 - 1);
    }
  }

  /** When every pixel is near a zone's counter equals its total; when none
      is, the counter is zero. */
  lemma {:induction false} CountExtremes(frame: array2<real>, fT: real, ls: Lines, z: nat,
                                         y0: int, y1: int, x0: int, x1: int)
    ensures AllNear(frame, fT, y0, y1, x0, x1) ==>
              RegionCount(frame, fT, ls, z, true, y0, y1, x0, x1) == RegionCount(frame, fT, ls, z, false, y0, y1, x0, x1)
    ensures NoneNear(frame, fT, y0, y1, x0, x1) ==> RegionCount(frame, fT, ls, z, true, y0, y1, x0, x1) == 0
    decreases y1 - y0
  {
    if y0 < y1 {
      CountExtremes(frame, fT, ls, z, y0, y1 - 1, x0, x1);
      RowExtremes(frame, fT, ls, z, y0, y1, y1 - 1, x0, x1);
      assert AllNear(frame, fT, y0, y1, x0, x1) ==> AllNear(frame, fT, y0, y1 - 1, x0, x1);
      assert NoneNear(frame, fT, y0, y1, x0, x1) ==> NoneNear(frame, fT, y0, y1 - 1, x0, x1);
    }
  }

  /** A zone's percentage is 100 (or NaN when it has no pixels) when every
      pixel is near, and 0 (or NaN) when none is. */
  lemma ScoreExtremes(frame: array2<real>, fT: real, ls: Lines, z: nat,
                      y0: int, y1: int, x0: int, x1: int)
    ensures AllNear(frame, fT, y0, y1, x0, x1) ==>
              ZoneScore(frame, fT, ls, z, y0, y1, x0, x1) in {Pct(100.0), NaN}
    ensures NoneNear(frame, fT, y0, y1, x0, x1) ==>
              ZoneScore(frame, fT, ls, z, y0, y1, x0, x1) in {Pct(0.0), NaN}
  {
    CountExtremes(frame, fT, ls, z, y0, y1, x0, x1);
  }

  lemma {:induction false} RowSpan(frame: array2<real>, fT: real, ls: Lines, z: nat,
                                   y: int, x0: int, x1: int, lo: int, hi: int)
    requires x0 <= lo <= hi <= x1
    requires forall x :: x0 <= x < x1 ==> (InZone(z, x, ls) <==> lo <= x < hi)
    ensures RowCount(frame, fT, ls, z, false, y, x0, x1) == hi - lo
    decreases x1 - x0
  {
    if x0 < x1 {
      if hi == x1 {
        if lo < hi {
          RowSpan(frame, fT, ls, z, y, x0, x1 - 1, lo, hi - 1);
        } else {
          RowSpan(frame, fT, ls, z, y, x0, x1 - 1, x1 - 1, x1 - 1);
        }
      } else {
        RowSpan(frame, fT, ls, z, y, x0, x1 - 1, lo, hi);
      }
    }
  }

  lemma {:induction false} RegionSpan(frame: array2<real>, fT: real, ls: Lines, z: nat,
                                      y0: int, y1: int, x0: int, x1: int, lo: int, hi: int)
    requires y0 <= y1 && x0 <= lo <= hi <= x1
    requires forall x :: x0 <= x < x1 ==> (InZone(z, x, ls) <==> lo <= x < hi)
    ensures RegionCount(frame, fT, ls, z, false, y0, y1, x0, x1) == (y1 - y0) * (hi - lo)
    decreases y1 - y0
  {
    if y0 < y1 {
      RegionSpan(frame, fT, ls, z, y0, y1 - 1, x0, x1, lo, hi);
      RowSpan(frame, fT, ls, z, y1 - 1, x0, x1, lo, hi);
      assert (y1 - y0) * (hi - lo) == (y1 - 1 - y0) * (hi - lo) + (hi - lo);
    }
  }

  /** With the split lines of the region itself, each zone's total is the
      region's height times that zone's width: the left third spans
      [x_start, line0), the centre [line0, line2), the right [line2, x_end),
      the left half [x_start, line1) and the right half [line1, x_end). */
  lemma ZoneTotals(frame: array2<real>, fT: real, y0: int, y1: int, x0: int, x1: int)
    requires y0 <= y1 && x0 <= x1
    ensures var ls := SplitLines(x0, x1 - x0);
            && RegionCount(frame, fT, ls, LEFT_THIRD, false, y0, y1, x0, x1) == (y1 - y0) * (ls.left - x0)
            && RegionCount(frame, fT, ls, CENTRE_THIRD, false, y0, y1, x0, x1) == (y1 - y0) * (ls.right - ls.left)
            && RegionCount(frame, fT, ls, RIGHT_THIRD, false, y0, y1, x0, x1) == (y1 - y0) * (x1 - ls.right)
            && RegionCount(frame, fT, ls, LEFT_HALF, false, y0, y1, x0, x1) == (y1 - y0) * (ls.mid - x0)
            && RegionCount(frame, fT, ls, RIGHT_HALF, false, y0, y1, x0, x1) == (y1 - y0) * (x1 - ls.mid)
  {
    var ls := SplitLines(x0, x1 - x0);
    RegionSpan(frame, fT, ls, LEFT_THIRD, y0, y1, x0, x1, x0, ls.left);
    RegionSpan(frame, fT, ls, CENTRE_THIRD, y0, y1, x0, x1, ls.left, ls.right);
    RegionSpan(frame, fT, ls, RIGHT_THIRD, y0, y1, x0, x1, ls.right, x1);
    RegionSpan(frame, fT, ls, LEFT_HALF, y0, y1, x0, x1, x0, ls.mid);
    RegionSpan(frame, fT, ls, RIGHT_HALF, y0, y1, x0, x1, ls.mid, x1);
  }
}
