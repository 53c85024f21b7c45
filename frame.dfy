/** The disparity frame as the region finder and the pixel counter see it. */
module Frame {

  /** Depth (in the camera's units) at or below which a pixel counts as an obstacle. */
  const DIS_THRESH: real := 1.0

  /** Reads a disparity. Reads outside the frame give 0.0: the scans for the
      bottom row and the right column start one past the image, and this
      padding is how the model gives those reads a value. (An unchecked read
      of column `width` in a continuous image would land on the next row's
      first pixel instead; the model does not follow that.) */
  function Pixel(frame: array2<real>, y: int, x: int): (d: real)
    reads frame
    ensures d != 0.0 ==> 0 <= y < frame.Length0 && 0 <= x < frame.Length1
    ensures 0 <= y < frame.Length0 && 0 <= x < frame.Length1 ==> d == frame[y, x]
  {
    if 0 <= y < frame.Length0 && 0 <= x < frame.Length1 then frame[y, x] else 0.0
  }

  /** The near test `depth <= DIS_THRESH` on depth = (f*T)/disparity, over the
      reals. A zero disparity makes the quotient +inf, -inf or NaN according to
      the sign of f*T, and of those only -inf passes the test. The source's
      extra clause `depth == NAN` never holds, because NaN equals nothing. */
  function IsNear(fT: real, disparity: real): (near: bool)
    ensures disparity > 0.0 ==> (near <==> fT <= DIS_THRESH * disparity)
    ensures disparity < 0.0 ==> (near <==> fT >= DIS_THRESH * disparity)
    ensures disparity == 0.0 ==> (near <==> fT < 0.0)
  {
    if disparity != 0.0 then fT / disparity <= DIS_THRESH else fT < 0.0
  }

  /** Row y holds a nonzero disparity in some column of [lo, hi). */
  ghost predicate RowHit(frame: array2<real>, y: int, lo: int, hi: int)
    reads frame
  {
    exists x :: lo <= x < hi && Pixel(frame, y, x) != 0.0
  }

  /** Column x holds a nonzero disparity in some row of [lo, hi). */
  ghost predicate ColHit(frame: array2<real>, x: int, lo: int, hi: int)
    reads frame
  {
    exists y :: lo <= y < hi && Pixel(frame, y, x) != 0.0
  }

  /** The pixel at (y, x) holds a nonzero disparity. */
  ghost predicate Nonzero(frame: array2<real>, y: int, x: int)
    reads frame
  {
    Pixel(frame, y, x) != 0.0
  }

  /** Some nonzero pixel lies in a row above row y. */
  ghost predicate HitAbove(frame: array2<real>, y: int)
    reads frame
  {
    exists y', x' :: y' < y && Nonzero(frame, y', x')
  }

  /** Some nonzero pixel lies in a column left of column x. */
  ghost predicate HitLeftOf(frame: array2<real>, x: int)
    reads frame
  {
    exists y', x' :: x' < x && Nonzero(frame, y', x')
  }

  /** What the four scans need in order to stop inside the image: a nonzero
      pixel that lies strictly below one nonzero pixel and strictly right of
      another. An all-zero frame, and also a frame whose nonzero pixels sit in
      one row or in one column, does not have one. */
  ghost predicate ScansTerminate(frame: array2<real>)
    reads frame
  {
    exists y, x :: Nonzero(frame, y, x) && HitAbove(frame, y) && HitLeftOf(frame, x)
  }

  /** Three nonzero pixels: (yc, xc) lies strictly below (ya, xa) and
      strictly right of (yb, xb). */
  ghost predicate Witnesses(frame: array2<real>, yc: int, xc: int, ya: int, xa: int, yb: int, xb: int)
    reads frame
  {
    && Pixel(frame, yc, xc) != 0.0
    && ya < yc && Pixel(frame, ya, xa) != 0.0
    && xb < xc && Pixel(frame, yb, xb) != 0.0
  }

  /** ScansTerminate holds exactly when such three pixels exist; this picks them. */
  lemma TerminationWitnesses(frame: array2<real>) returns (yc: int, xc: int, ya: int, xa: int, yb: int, xb: int)
    requires ScansTerminate(frame)
    ensures Witnesses(frame, yc, xc, ya, xa, yb, xb)
  {
    yc, xc :| Nonzero(frame, yc, xc) && HitAbove(frame, yc) && HitLeftOf(frame, xc);
    ya, xa :| ya < yc && Nonzero(frame, ya, xa);
    yb, xb :| xb < xc && Nonzero(frame, yb, xb);
  }

  /** y_start: the first row, from the top, with a nonzero anywhere across. */
  ghost predicate IsTopRow(frame: array2<real>, ys: int)
    reads frame
  {
    && 0 <= ys
    && RowHit(frame, ys, 0, frame.Length1)
    && forall y :: 0 <= y < ys ==> !RowHit(frame, y, 0, frame.Length1)
  }

  /** x_start: the first column, from the left, with a nonzero in rows y_start
      and below. */
  ghost predicate IsLeftColumn(frame: array2<real>, ys: int, xs: int)
    reads frame
  {
    && 0 <= xs
    && ColHit(frame, xs, ys, frame.Length0)
    && forall x :: 0 <= x < xs ==> !ColHit(frame, x, ys, frame.Length0)
  }

  /** No row in (from, to] holds a nonzero in columns [lo, hi). */
  ghost predicate RowsClear(frame: array2<real>, from: int, to: int, lo: int, hi: int)
    reads frame
  {
    forall y :: from < y <= to ==> !RowHit(frame, y, lo, hi)
  }

  /** No column in (from, to] holds a nonzero in rows [lo, hi). */
  ghost predicate ColumnsClear(frame: array2<real>, from: int, to: int, lo: int, hi: int)
    reads frame
  {
    forall x :: from < x <= to ==> !ColHit(frame, x, lo, hi)
  }

  /** y_end: the last row, scanning up from row `height`, with a nonzero in
      columns (x_start, width]. */
  ghost predicate IsBottomRow(frame: array2<real>, xs: int, ye: int)
    reads frame
  {
    && ye <= frame.Length0
    && RowHit(frame, ye, xs + 1, frame.Length1 + 1)
    && RowsClear(frame, ye, frame.Length0, xs + 1, frame.Length1 + 1)
  }

  /** x_end: the last column, scanning left from column `width`, with a nonzero
      in rows (y_start, y_end]. */
  ghost predicate IsRightColumn(frame: array2<real>, ys: int, ye: int, xe: int)
    reads frame
  {
    && xe <= frame.Length1
    && ColHit(frame, xe, ys + 1, ye + 1)
    && ColumnsClear(frame, xe, frame.Length1, ys + 1, ye + 1)
  }

  /** The corners the four scans of the region finder stop at. */
  ghost predicate IsRegion(frame: array2<real>, ys: int, xs: int, ye: int, xe: int)
    reads frame
  {
    && IsTopRow(frame, ys)
    && IsLeftColumn(frame, ys, xs)
    && IsBottomRow(frame, xs, ye)
    && IsRightColumn(frame, ys, ye, xe)
  }

  /** Every pixel of the frame is nonzero. */
  ghost predicate AllNonzero(frame: array2<real>)
    reads frame
  {
    forall y, x :: 0 <= y < frame.Length0 && 0 <= x < frame.Length1 ==> frame[y, x] != 0.0
  }

  /** Every pixel of the frame is zero. */
  ghost predicate AllZero(frame: array2<real>)
    reads frame
  {
    forall y, x :: 0 <= y < frame.Length0 && 0 <= x < frame.Length1 ==> frame[y, x] == 0.0
  }

  /** The corners lie inside the image, strictly ordered: the region is at
      least one pixel wide and one pixel high. */
  lemma RegionBounds(frame: array2<real>, ys: int, xs: int, ye: int, xe: int)
    requires IsRegion(frame, ys, xs, ye, xe)
    ensures 0 <= ys < ye < frame.Length0
    ensures 0 <= xs < xe < frame.Length1
  {
    var xb :| xs + 1 <= xb < frame.Length1 + 1 && Pixel(frame, ye, xb) != 0.0;
    var yr :| ys + 1 <= yr < ye + 1 && Pixel(frame, yr, xe) != 0.0;
    assert ColHit(frame, xb, ys + 1, ye + 1);
  }

  /** The four scans have one outcome only: the predicates pin the corners down. */
  lemma RegionUnique(frame: array2<real>, ys: int, xs: int, ye: int, xe: int,
                     ys': int, xs': int, ye': int, xe': int)
    requires IsRegion(frame, ys, xs, ye, xe)
    requires IsRegion(frame, ys', xs', ye', xe')
    ensures ys == ys' && xs == xs' && ye == ye' && xe == xe'
  {
  }

  /** The scans can only stop where ScansTerminate holds: the precondition of
      the region finder is necessary as well as sufficient. */
  lemma RegionNeedsTermination(frame: array2<real>, ys: int, xs: int, ye: int, xe: int)
    requires IsRegion(frame, ys, xs, ye, xe)
    ensures ScansTerminate(frame)
  {
    var xt :| 0 <= xt < frame.Length1 && Pixel(frame, ys, xt) != 0.0;
    var yl :| ys <= yl < frame.Length0 && Pixel(frame, yl, xs) != 0.0;
    var xb :| xs + 1 <= xb < frame.Length1 + 1 && Pixel(frame, ye, xb) != 0.0;
    var yr :| ys + 1 <= yr < ye + 1 && Pixel(frame, yr, xe) != 0.0;
    assert HitAbove(frame, yr) by { assert ys < yr && Nonzero(frame, ys, xt); }
    assert xs < xb <= xe by {
      assert ColHit(frame, xb, ys + 1, ye + 1);
    }
    assert HitLeftOf(frame, xe) by { assert xs < xe && Nonzero(frame, yl, xs); }
    assert Nonzero(frame, yr, xe);
  }

  /** An all-zero frame has no region: the region finder never stops on it. */
  lemma AllZeroHasNoRegion(frame: array2<real>, ys: int, xs: int, ye: int, xe: int)
    requires AllZero(frame)
    ensures !IsRegion(frame, ys, xs, ye, xe)
  {
    assert forall x :: Pixel(frame, ys, x) == 0.0;
    assert !RowHit(frame, ys, 0, frame.Length1);
  }

  /** On a frame with no zero pixel the region is (0, 0, width - 1, height - 1):
      the end scans, starting one past the image, give up the last row and the
      last column. */
  lemma FullFrameRegion(frame: array2<real>)
    requires AllNonzero(frame)
    requires frame.Length0 >= 2 && frame.Length1 >= 2
    ensures IsRegion(frame, 0, 0, frame.Length0 - 1, frame.Length1 - 1)
  {
    var h, w := frame.Length0, frame.Length1;
    assert Pixel(frame, 0, 0) != 0.0;
    assert RowHit(frame, 0, 0, w);
    assert ColHit(frame, 0, 0, h);
    assert Pixel(frame, h - 1, w - 1) != 0.0;
    assert RowHit(frame, h - 1, 1, w + 1);
    assert ColHit(frame, w - 1, 1, h);
    assert !RowHit(frame, h, 1, w + 1);
    assert !ColHit(frame, w, 1, h);
  }
}
