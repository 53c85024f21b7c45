/** The per-frame pipeline: the image converter's globals and the stages that
    update them (region finder, partition, pixel counter), then the section
    selector and the command switch. */
module Avoidance {
  import opened Frame
  import opened Zones
  import opened Steering

  class ImageConverter {
    // The program's globals: image size, region size and corners, the camera
    // calibration and the last section chosen.
    var width: int
    var height: int
    var roiW: int
    var roiH: int
    var xStart: int
    var xEnd: int
    var yStart: int
    var yEnd: int
    var f: real
    var t: real
    var section: int

    /** Every global starts at zero. */
    constructor ()
      ensures width == 0 && height == 0 && roiW == 0 && roiH == 0
      ensures xStart == 0 && xEnd == 0 && yStart == 0 && yEnd == 0
      ensures f == 0.0 && t == 0.0 && section == 0
    {
      width, height, roiW, roiH := 0, 0, 0, 0;
      xStart, xEnd, yStart, yEnd := 0, 0, 0, 0;
      f, t, section := 0.0, 0.0, 0;
    }

    /** Handles one disparity frame: resets the corners to the whole image,
        finds the region, partitions it, counts near pixels per zone, selects
        a section and turns it into the command to publish. */
    method ProcessImage(frame: array2<real>, msgF: real, msgT: real) returns (command: Twist)
      requires ScansTerminate(frame)
      modifies this
      ensures width == frame.Length1 && height == frame.Length0
      ensures IsRegion(frame, yStart, xStart, yEnd, xEnd)
      ensures 0 <= yStart < yEnd < height && 0 <= xStart < xEnd < width
      ensures roiW == xEnd - xStart && roiH == yEnd - yStart
      ensures f == msgF && t == msgT
      ensures section == SelectSection(Scores(frame, msgF * msgT, SplitLines(xStart, roiW), yStart, yEnd, xStart, xEnd))
      ensures command == Command(section)
    {
      ghost var yc, xc, ya, xa, yb, xb := TerminationWitnesses(frame);
      FindRegion(frame, msgF, msgT, yc, xc, ya, xa, yb, xb);
      ghost var region := IsRegion(frame, yStart, xStart, yEnd, xEnd);
      command := Steer(frame, msgF * msgT);
      assert region == IsRegion(frame, yStart, xStart, yEnd, xEnd);
    }

    /** The first half of the frame handler: resets the corners to the whole
        image, finds the region and stores its size and the camera
        parameters. The ghost parameters are the region finder's witnesses. */
    method FindRegion(frame: array2<real>, msgF: real, msgT: real,
                      ghost yc: int, ghost xc: int, ghost ya: int, ghost xa: int, ghost yb: int, ghost xb: int)
      requires Witnesses(frame, yc, xc, ya, xa, yb, xb)
      modifies this`width, this`height, this`xStart, this`yStart, this`xEnd, this`yEnd
      modifies this`roiW, this`roiH, this`f, this`t
      ensures width == frame.Length1 && height == frame.Length0
      ensures IsRegion(frame, yStart, xStart, yEnd, xEnd)
      ensures 0 <= yStart < yEnd < height && 0 <= xStart < xEnd < width
      ensures roiW == xEnd - xStart && roiH == yEnd - yStart
      ensures f == msgF && t == msgT
    {
      width, height := frame.Length1, frame.Length0;
      xStart, yStart, xEnd, yEnd := 0, 0, width, height;
      CalculateCorners(frame, yc, xc, ya, xa, yb, xb);
      ghost var region := IsRegion(frame, yStart, xStart, yEnd, xEnd);
      roiW, roiH := xEnd - xStart, yEnd - yStart;
      f, t := msgF, msgT;
      assert region == IsRegion(frame, yStart, xStart, yEnd, xEnd);
    }

    /** The second half of the frame handler: partitions the region, counts
        near pixels per zone, selects a section and maps it to a command. */
    method Steer(frame: array2<real>, fT: real) returns (command: Twist)
      requires fT == f * t
      requires width == frame.Length1 && height == frame.Length0
      requires 0 <= yStart <= yEnd <= height && 0 <= xStart <= xEnd <= width
      requires roiW == xEnd - xStart
      modifies this`section
      ensures section == SelectSection(Scores(frame, fT, SplitLines(xStart, roiW), yStart, yEnd, xStart, xEnd))
      ensures command == Command(section)
    {
      var partitionLines := new int[3](_ => 0);
      Partition(partitionLines);
      ghost var ls := Lines(partitionLines[0], partitionLines[1], partitionLines[2]);
      assert ls == SplitLines(xStart, roiW);

      var sectionValues := new Percent[5](_ => Pct(0.0));
      CountPixels(frame, fT, sectionValues, partitionLines);
      ghost var scores := sectionValues[..];
      assert scores == Scores(frame, fT, ls, yStart, yEnd, xStart, xEnd);

      section := SelectSection(sectionValues[..]);
      command := Command(section);
    }

    /** Moves the four corners inward, one row or column at a time, until
        each bounding row or column holds a nonzero disparity. The ghost
        parameters are three nonzero pixels that keep every scan inside the
        image (see Witnesses). */
    method CalculateCorners(frame: array2<real>, ghost yc: int, ghost xc: int, ghost ya: int, ghost xa: int,
                            ghost yb: int, ghost xb: int)
      requires width == frame.Length1 && height == frame.Length0
      requires xStart == 0 && yStart == 0 && xEnd == width && yEnd == height
      requires Witnesses(frame, yc, xc, ya, xa, yb, xb)
      modifies this`yStart, this`xStart, this`yEnd, this`xEnd
      ensures IsRegion(frame, yStart, xStart, yEnd, xEnd)
      ensures old(yStart) <= yStart < yEnd <= old(yEnd)
      ensures old(xStart) <= xStart < xEnd <= old(xEnd)
      ensures yEnd < height && xEnd < width
    {
      FindTopRow(frame, ya, xa);
      assert RowHit(frame, yb, 0, width);
      FindLeftColumn(frame, ya, xa);
      assert ColHit(frame, xb, yStart, height);
      FindBottomRow(frame, yc, xc);
      ghost var xd :| xStart + 1 <= xd < width + 1 && Pixel(frame, yEnd, xd) != 0.0;
      FindRightColumn(frame, xd);
    }

    /** The first scan: moves yStart down to the first row that is not zero
        all the way across. (ya, xa) is a nonzero pixel at or below yStart. */
    method FindTopRow(frame: array2<real>, ghost ya: int, ghost xa: int)
      requires width == frame.Length1 && height == frame.Length0
      requires yStart == 0 <= ya && Pixel(frame, ya, xa) != 0.0
      modifies this`yStart
      ensures yStart <= ya && IsTopRow(frame, yStart)
    {
      var empty := true;
      while empty
        invariant 0 <= yStart <= ya
        invariant forall y :: 0 <= y < yStart ==> !RowHit(frame, y, 0, width)
        invariant !empty ==> RowHit(frame, yStart, 0, width)
        decreases ya - yStart, empty
      {
        for x := 0 to width
          invariant empty
          invariant forall x' :: 0 <= x' < x ==> Pixel(frame, yStart, x') == 0.0
        {
          if Pixel(frame, yStart, x) != 0.0 {
            empty := false;
            break;
          }
        }
        if empty {
          assert Pixel(frame, yStart, xa) == 0.0;
          yStart := yStart + 1;
        }
      }
    }

    /** The second scan: moves xStart right to the first column that is not
        zero in rows yStart and below. (ya, xa) is a nonzero pixel in those
        rows, right of xStart. */
    method FindLeftColumn(frame: array2<real>, ghost ya: int, ghost xa: int)
      requires width == frame.Length1 && height == frame.Length0
      requires xStart == 0 <= yStart <= ya && Pixel(frame, ya, xa) != 0.0
      modifies this`xStart
      ensures xStart <= xa && IsLeftColumn(frame, yStart, xStart)
    {
      var empty := true;
      while empty
        invariant 0 <= xStart <= xa
        invariant forall x :: 0 <= x < xStart ==> !ColHit(frame, x, yStart, height)
        invariant !empty ==> ColHit(frame, xStart, yStart, height)
        decreases xa - xStart, empty
      {
        for y := yStart to height
          invariant empty
          invariant forall y' :: yStart <= y' < y ==> Pixel(frame, y', xStart) == 0.0
        {
          if Pixel(frame, y, xStart) != 0.0 {
            empty := false;
            break;
          }
        }
        if empty {
          assert Pixel(frame, ya, xStart) == 0.0;
          xStart := xStart + 1;
        }
      }
    }

    /** The third scan: moves yEnd up from row height to the last row with a
        nonzero in columns (xStart, xEnd]. (yc, xc) is a nonzero pixel in
        those columns. */
    method FindBottomRow(frame: array2<real>, ghost yc: int, ghost xc: int)
      requires width == frame.Length1 && height == frame.Length0
      requires yEnd == height && xEnd == width
      requires xStart < xc && Pixel(frame, yc, xc) != 0.0
      modifies this`yEnd
      ensures yc <= yEnd < height && IsBottomRow(frame, xStart, yEnd)
    {
      var empty := true;
      while empty
        invariant yc <= yEnd <= height
        invariant RowsClear(frame, yEnd, height, xStart + 1, width + 1)
        invariant !empty ==> RowHit(frame, yEnd, xStart + 1, width + 1) && yEnd < height
        decreases yEnd - yc, empty
      {
        var x := xEnd;
        while x > xStart
          invariant empty
          invariant xStart <= x <= xEnd
          invariant forall x' :: x < x' <= xEnd ==> Pixel(frame, yEnd, x') == 0.0
        {
          if Pixel(frame, yEnd, x) != 0.0 {
            empty := false;
            break;
          }
          x := x - 1;
        }
        if empty {
          assert Pixel(frame, yEnd, xc) == 0.0;
          yEnd := yEnd - 1;
        }
      }
    }

    /** The fourth scan: moves xEnd left from column width to the last column
        with a nonzero in rows (yStart, yEnd]. (yEnd, xd) is a nonzero pixel. */
    method FindRightColumn(frame: array2<real>, ghost xd: int)
      requires width == frame.Length1 && height == frame.Length0
      requires xEnd == width && yStart < yEnd
      requires Pixel(frame, yEnd, xd) != 0.0
      modifies this`xEnd
      ensures xd <= xEnd < width && IsRightColumn(frame, yStart, yEnd, xEnd)
    {
      var empty := true;
      while empty
        invariant xd <= xEnd <= width
        invariant ColumnsClear(frame, xEnd, width, yStart + 1, yEnd + 1)
        invariant !empty ==> ColHit(frame, xEnd, yStart + 1, yEnd + 1) && xEnd < width
        decreases xEnd - xd, empty
      {
        var y := yEnd;
        while y > yStart
          invariant empty
          invariant yStart <= y <= yEnd
          invariant forall y' :: y < y' <= yEnd ==> Pixel(frame, y', xEnd) == 0.0
        {
          if Pixel(frame, y, xEnd) != 0.0 {
            empty := false;
            break;
          }
          y := y - 1;
        }
        if empty {
          assert Pixel(frame, yEnd, xEnd) == 0.0;
          xEnd := xEnd - 1;
        }
      }
    }

    /** Writes the three split columns of the region into partitionLines. */
    method Partition(partitionLines: array<int>)
      requires partitionLines.Length == 3
      requires roiW >= 0
      modifies partitionLines
      ensures Lines(partitionLines[0], partitionLines[1], partitionLines[2]) == SplitLines(xStart, roiW)
    {
      partitionLines[0] := roiW / 3 + xStart;
      partitionLines[1] := roiW / 2 + xStart;
      partitionLines[2] := (2 * roiW) / 3 + xStart;
    }

    /** One pass over the region: counts, per zone, the pixels and the near
        pixels, then stores each zone's percentage in sectionValues. */
    method CountPixels(frame: array2<real>, fT: real, sectionValues: array<Percent>, partitionLines: array<int>)
      requires fT == f * t
      requires width == frame.Length1 && height == frame.Length0
      requires 0 <= yStart <= yEnd <= height && 0 <= xStart <= xEnd <= width
      requires sectionValues.Length == 5 && partitionLines.Length == 3
      modifies sectionValues
      ensures sectionValues[..] == Scores(frame, fT, Lines(partitionLines[0], partitionLines[1], partitionLines[2]),
                                          yStart, yEnd, xStart, xEnd)
    {
      ghost var ls := Lines(partitionLines[0], partitionLines[1], partitionLines[2]);
      var counters, totals := TallyRegion(frame, fT, partitionLines);
      for i := 0 to 5
        modifies sectionValues
        invariant forall z :: 0 <= z < i ==> sectionValues[z] == ZoneScore(frame, fT, ls, z, yStart, yEnd, xStart, xEnd)
      {
        NearAtMostTotal(frame, fT, ls, i, yStart, yEnd, xStart, xEnd);
        sectionValues[i] := Percentage(counters[i], totals[i]);
      }
    }

    /** The two nested loops of the pixel counter: per zone, the number of
        near pixels and the number of pixels in the region. */
    method TallyRegion(frame: array2<real>, fT: real, partitionLines: array<int>)
      returns (counters: array<int>, totals: array<int>)
      requires width == frame.Length1 && height == frame.Length0
      requires 0 <= yStart <= yEnd <= height && 0 <= xStart <= xEnd <= width
      requires partitionLines.Length == 3
      ensures fresh(counters) && fresh(totals)
      ensures counters.Length == 5 && totals.Length == 5
      ensures var ls := Lines(partitionLines[0], partitionLines[1], partitionLines[2]);
              forall z :: 0 <= z < 5 ==>
                && counters[z] == RegionCount(frame, fT, ls, z, true, yStart, yEnd, xStart, xEnd)
                && totals[z] == RegionCount(frame, fT, ls, z, false, yStart, yEnd, xStart, xEnd)
    {
      ghost var ls := Lines(partitionLines[0], partitionLines[1], partitionLines[2]);
      counters := new int[5](_ => 0);
      totals := new int[5](_ => 0);

      for y := yStart to yEnd
        modifies counters, totals
        invariant forall z :: 0 <= z < 5 ==>
                    && counters[z] == RegionCount(frame, fT, ls, z, true, yStart, y, xStart, xEnd)
                    && totals[z] == RegionCount(frame, fT, ls, z, false, yStart, y, xStart, xEnd)
      {
        TallyRow(frame, fT, partitionLines, counters, totals, y);
      }
    }

    /** The inner loop of the pixel counter: tallies the pixels of row y
        between the left and the right column. */
    method TallyRow(frame: array2<real>, fT: real, partitionLines: array<int>,
                    counters: array<int>, totals: array<int>, y: int)
      requires width == frame.Length1 && height == frame.Length0
      requires 0 <= y < height && 0 <= xStart <= xEnd <= width
      requires partitionLines.Length == 3 && counters.Length == 5 && totals.Length == 5
      requires counters != totals
      modifies counters, totals
      ensures var ls := Lines(partitionLines[0], partitionLines[1], partitionLines[2]);
              forall z :: 0 <= z < 5 ==>
                && counters[z] == old(counters[z]) + RowCount(frame, fT, ls, z, true, y, xStart, xEnd)
                && totals[z] == old(totals[z]) + RowCount(frame, fT, ls, z, false, y, xStart, xEnd)
    {
      ghost var ls := Lines(partitionLines[0], partitionLines[1], partitionLines[2]);
      for x := xStart to xEnd
        invariant forall z :: 0 <= z < 5 ==>
                    && counters[z] == old(counters[z]) + RowCount(frame, fT, ls, z, true, y, xStart, x)
                    && totals[z] == old(totals[z]) + RowCount(frame, fT, ls, z, false, y, xStart, x)
      {
        var disparity := frame[y, x];
        var near := IsNear(fT, disparity);
        TallyPixel(counters, totals, partitionLines, x, near);
        RowCountStep(frame, fT, ls, y, xStart, x, near);
      }
    }
  }

  /** The body of the pixel counter's inner loop: adds one pixel of column x
      to the total of its third and of its half, and, when it is near, to
      their counters. */
  method TallyPixel(counters: array<int>, totals: array<int>, partitionLines: array<int>, x: int, near: bool)
    requires counters.Length == 5 && totals.Length == 5 && partitionLines.Length == 3
    requires counters != totals
    modifies counters, totals
    ensures var ls := Lines(partitionLines[0], partitionLines[1], partitionLines[2]);
            forall z :: 0 <= z < 5 ==>
              && counters[z] == old(counters[z]) + (if near && InZone(z, x, ls) then 1 else 0)
              && totals[z] == old(totals[z]) + (if InZone(z, x, ls) then 1 else 0)
  {
    if x < partitionLines[0] {
      // left third, and so left half
      totals[0] := totals[0] + 1;
      totals[3] := totals[3] + 1;
      if near {
        counters[0] := counters[0] + 1;
        counters[3] := counters[3] + 1;
      }
    } else if x < partitionLines[2] {
      // centre third, split between the halves at the middle line
      totals[1] := totals[1] + 1;
      if x < partitionLines[1] {
        totals[3] := totals[3] + 1;
      } else {
        totals[4] := totals[4] + 1;
      }
      if near {
        counters[1] := counters[1] + 1;
        if x < partitionLines[1] {
          counters[3] := counters[3] + 1;
        } else {
          counters[4] := counters[4] + 1;
        }
      }
    } else {
      // right third, and so right half
      totals[2] := totals[2] + 1;
      totals[4] := totals[4] + 1;
      if near {
        counters[2] := counters[2] + 1;
        counters[4] := counters[4] + 1;
      }
    }
  }

  /** A region in which every pixel is near makes the robot stop: every zone
      reads 100 or NaN, so neither the centre nor a side is clear. */
  lemma AllNearStops(frame: array2<real>, fT: real, ys: int, xs: int, ye: int, xe: int)
    requires xs <= xe
    requires AllNear(frame, fT, ys, ye, xs, xe)
    ensures SelectSection(Scores(frame, fT, SplitLines(xs, xe - xs), ys, ye, xs, xe)) == NO_SECTION
    ensures Command(SelectSection(Scores(frame, fT, SplitLines(xs, xe - xs), ys, ye, xs, xe))) == Twist(0.0, 0.0)
  {
    var ls := SplitLines(xs, xe - xs);
    ScoreExtremes(frame, fT, ls, LEFT_THIRD, ys, ye, xs, xe);
    ScoreExtremes(frame, fT, ls, CENTRE_THIRD, ys, ye, xs, xe);
    ScoreExtremes(frame, fT, ls, RIGHT_THIRD, ys, ye, xs, xe);
  }

  /** A region at least two columns wide with no near pixel sends the robot
      straight ahead: the centre third has pixels and reads 0. */
  lemma NothingNearGoesStraight(frame: array2<real>, fT: real, ys: int, xs: int, ye: int, xe: int)
    requires ys < ye && xs + 2 <= xe
    requires NoneNear(frame, fT, ys, ye, xs, xe)
    ensures SelectSection(Scores(frame, fT, SplitLines(xs, xe - xs), ys, ye, xs, xe)) == CENTRE
    ensures Command(SelectSection(Scores(frame, fT, SplitLines(xs, xe - xs), ys, ye, xs, xe))) == Twist(LINEAR, 0.0)
  {
    var ls := SplitLines(xs, xe - xs);
    ScoreExtremes(frame, fT, ls, CENTRE_THIRD, ys, ye, xs, xe);
    ZoneTotals(frame, fT, ys, ye, xs, xe);
    var rows, columns := ye - ys, ls.right - ls.left;
    assert 0 < rows && 0 < columns;
    assert RegionCount(frame, fT, ls, CENTRE_THIRD, false, ys, ye, xs, xe) == rows * columns > 0;
    var scores := Scores(frame, fT, ls, ys, ye, xs, xe);
    assert scores[CENTRE_THIRD] == Pct(0.0);
  }

  /** A region one column wide always makes the robot stop, whatever its
      pixels: all three split lines fall on x_start, so the left and centre
      thirds are empty and read NaN, and a clear right third is never chosen
      against a NaN left third. */
  lemma OneColumnStops(frame: array2<real>, fT: real, ys: int, xs: int, ye: int)
    requires ys < ye
    ensures SelectSection(Scores(frame, fT, SplitLines(xs, 1), ys, ye, xs, xs + 1)) == NO_SECTION
    ensures Command(SelectSection(Scores(frame, fT, SplitLines(xs, 1), ys, ye, xs, xs + 1))) == Twist(0.0, 0.0)
  {
    var ls := SplitLines(xs, 1);
    assert ls.left == xs && ls.right == xs;
    ZoneTotals(frame, fT, ys, ye, xs, xs + 1);
    var scores := Scores(frame, fT, ls, ys, ye, xs, xs + 1);
    assert scores[LEFT_THIRD] == NaN;
    assert scores[CENTRE_THIRD] == NaN;
  }
}
