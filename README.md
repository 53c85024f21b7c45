# Obstacle avoidance from a disparity image

This project models the per-frame core of a ROS node that steers a ground
robot away from obstacles, using the disparity image of a stereo camera. For
each incoming frame the node does the following:

1. It resets its region corners to the whole image.
2. `calculateCorners` runs four scans that shrink the corners to a region of
   interest: the first row and the first column that hold a nonzero
   disparity, then the last row and the last column, scanning back from one
   past the image.
3. `partition` splits that region at 1/3, 1/2 and 2/3 of its width.
4. `countPixels` counts, for each of five zones (left, centre and right
   third, left and right half), how many pixels there are and how many are
   near. A pixel is near when `(f*T)/disparity <= DIS_THRESH`. It then turns
   the counts into percentages.
5. `selectSection` picks the centre, the left, the right or no section.
6. A switch turns the section into a velocity command.

The model has four modules:

- `Frame` holds the image, the pixel read and the near test. It also holds
  the predicates that say what each of the four scans stops at.
- `Zones` holds the split lines, which zone a column belongs to, the
  per-zone counts as recursive specification functions, and the percentage.
- `Steering` holds the section selector and the command switch.
- `Avoidance` holds the `ImageConverter` class. Its fields are the program's
  globals, and its methods are the frame handler, the region finder, the
  partition and the pixel counter. They are imperative, with loops proved
  against the specification functions.

Floats are modelled as reals. A percentage of a zone with no pixels is 0/0
in the source, so it is modelled as `NaN`, and every comparison with `NaN`
is false, as it is for IEEE floats. A zero disparity makes `(f*T)/0` equal
to +inf, -inf or NaN, depending on the sign of `f*T`. The near test follows
that, so a zero pixel is near only when `f*T < 0`. The source's
`depth == NAN` clause can never hold, so it adds nothing. The scans for the
bottom row and the right column start at row `height` and column `width`,
one past the image. `Frame.Pixel` gives such reads the value 0.0; the
section on what is left out says how the source's reads there differ.

## Model

| member | source | states |
|---|---|---|
| `Frame.Pixel` | ROS_Obstacle_Avoidance3.cpp:187-238 | a nonzero read lies inside the image, and inside the image the read is the stored disparity |
| `Frame.IsNear` | ROS_Obstacle_Avoidance3.cpp:274-282 | by the sign of the disparity: positive means near iff `f*T <= DIS_THRESH*d`, negative means near iff `f*T >= DIS_THRESH*d`, zero means near iff `f*T < 0` (the `depth == NAN` clause never holds) |
| `Frame.RegionBounds` | ROS_Obstacle_Avoidance3.cpp:178-247 | the corners the scans stop at satisfy `0 <= y_start < y_end < height` and `0 <= x_start < x_end < width` |
| `Frame.RegionUnique` | ROS_Obstacle_Avoidance3.cpp:178-247 | the four stopping conditions determine the corners uniquely |
| `Frame.RegionNeedsTermination` | ROS_Obstacle_Avoidance3.cpp:180-246 | if the scans stop at all, the three witness pixels exist, so the region finder's precondition is necessary as well as sufficient |
| `Frame.AllZeroHasNoRegion` | ROS_Obstacle_Avoidance3.cpp:180-195 | on an all-zero frame no corners satisfy the stopping conditions: the first scan never stops |
| `Frame.FullFrameRegion` | ROS_Obstacle_Avoidance3.cpp:178-247 | with reads outside the image padded as 0.0, a frame of at least 2x2 with no zero pixel has the region rows 0..height-1 and columns 0..width-1: the end scans give up the last row and column |
| `Zones.SplitLines` | ROS_Obstacle_Avoidance3.cpp:249-255 | the split lines are ordered inside the region, and each one is the truncated 1/3, 1/2 or 2/3 of `roi_w` plus `x_start` |
| `Zones.Third` | ROS_Obstacle_Avoidance3.cpp:277-319 | a column is in the left third iff `x < line0`, the centre third iff `line0 <= x < line2`, and the right third otherwise |
| `Zones.Half` | ROS_Obstacle_Avoidance3.cpp:277-319 | the left third counts toward the left half and the right third toward the right half; with ordered lines, a column is in the left half iff `x < line1` |
| `Zones.RowCountStep` | ROS_Obstacle_Avoidance3.cpp:270-320 | one more pixel of a row adds one to the total of each zone it is in, and one to the counter of each of them when it is near |
| `Zones.Percentage` | ROS_Obstacle_Avoidance3.cpp:323-324 | `counter/total*100` is NaN iff the total is 0, lies in [0, 100], is 100 iff every pixel is near, and is 0 iff none is |
| `Zones.NearAtMostTotal` | ROS_Obstacle_Avoidance3.cpp:277-319 | a zone's near counter never exceeds its total |
| `Zones.ZonesPartitionRegion` | ROS_Obstacle_Avoidance3.cpp:268-321 | every pixel of the region lands in exactly one third and exactly one half: the three thirds and the two halves both sum to the same count, and for totals that count is the region's area |
| `Zones.ThirdWithinHalf` | ROS_Obstacle_Avoidance3.cpp:278-319 | the left third's counts never exceed the left half's, and the right third's never exceed the right half's |
| `Zones.CountExtremes` | ROS_Obstacle_Avoidance3.cpp:268-321 | when every pixel is near, a zone's counter equals its total; when none is, the counter is 0 |
| `Zones.ScoreExtremes` | ROS_Obstacle_Avoidance3.cpp:268-324 | when every pixel is near, each percentage is 100 or NaN; when none is, each is 0 or NaN |
| `Zones.RegionSpan` | ROS_Obstacle_Avoidance3.cpp:268-321 | a zone that covers columns [lo, hi) of the region has a total of (rows) * (hi - lo) |
| `Zones.ZoneTotals` | ROS_Obstacle_Avoidance3.cpp:249-321 | with the region's own split lines, each zone's total is the region's height times the zone's width in columns |
| `Steering.SelectSection` | ROS_Obstacle_Avoidance3.cpp:332-358 | the centre wins iff it is clear (< 15). Otherwise the strictly clearer of two clear thirds wins. A tie of clear thirds goes left iff the left half is strictly clearer, else right. The result is -1 iff no third is clear, or a side is clear but the other side is NaN |
| `Steering.Command` | ROS_Obstacle_Avoidance3.cpp:155-173 | sections 0, 1, 2 drive forward at LINEAR with angular velocity -ANGULAR, 0 and +ANGULAR respectively; any other section gives the all-zero stop command |
| `Steering.CommandRoundTrip` | ROS_Obstacle_Avoidance3.cpp:155-173 | distinct sections give distinct commands: the section can be read back off the command |
| `Steering.DecisionToCommand` | ROS_Obstacle_Avoidance3.cpp:149-173 | the robot stops iff the centre is not clear and no side third is clear against a numeric other side; it goes straight iff the centre is clear; it turns only when the centre is blocked |
| `Avoidance.ImageConverter.constructor` | ROS_Obstacle_Avoidance3.cpp:26-36 | every global starts at zero |
| `Avoidance.ImageConverter.ProcessImage` | ROS_Obstacle_Avoidance3.cpp:84-173 | after one frame: the size is the image's, the corners are the region the scans stop at, roi and calibration are stored, the section is the selector's choice on the region's five percentages, and the command is the switch's |
| `Avoidance.ImageConverter.FindRegion` | ROS_Obstacle_Avoidance3.cpp:84-93 | after the reset and the region finder, the corners are the region and `roi_w`, `roi_h`, `f`, `T` are set; only those ten globals may change, so `section` keeps its value |
| `Avoidance.ImageConverter.Steer` | ROS_Obstacle_Avoidance3.cpp:99-173 | partition, count and select: the section is the selector applied to the five percentages of the region under its own split lines |
| `Avoidance.ImageConverter.CalculateCorners` | ROS_Obstacle_Avoidance3.cpp:178-247 | the four scans stop at the region, moving each corner only inward, and end with `y_end < height` and `x_end < width` |
| `Avoidance.ImageConverter.FindTopRow` | ROS_Obstacle_Avoidance3.cpp:180-195 | `y_start` becomes the first row with a nonzero disparity |
| `Avoidance.ImageConverter.FindLeftColumn` | ROS_Obstacle_Avoidance3.cpp:197-212 | `x_start` becomes the first column with a nonzero in rows `y_start` and below |
| `Avoidance.ImageConverter.FindBottomRow` | ROS_Obstacle_Avoidance3.cpp:214-229 | `y_end` becomes the last row, scanning up from `height`, with a nonzero in columns (`x_start`, `width`] |
| `Avoidance.ImageConverter.FindRightColumn` | ROS_Obstacle_Avoidance3.cpp:231-246 | `x_end` becomes the last column, scanning left from `width`, with a nonzero in rows (`y_start`, `y_end`] |
| `Avoidance.ImageConverter.Partition` | ROS_Obstacle_Avoidance3.cpp:249-255 | the array holds the region's three split lines |
| `Avoidance.ImageConverter.CountPixels` | ROS_Obstacle_Avoidance3.cpp:257-330 | the five stored values are the percentages of near pixels per zone over the region |
| `Avoidance.ImageConverter.TallyRegion` | ROS_Obstacle_Avoidance3.cpp:259-321 | after the nested loops, each zone's counter and total equal its near count and pixel count over the region |
| `Avoidance.ImageConverter.TallyRow` | ROS_Obstacle_Avoidance3.cpp:270-320 | one row's pass adds that row's near count and pixel count to each zone |
| `Avoidance.TallyPixel` | ROS_Obstacle_Avoidance3.cpp:277-319 | one pixel adds one to the total of exactly its third and its half, and to their counters when near; no other zone changes |
| `Avoidance.AllNearStops` | ROS_Obstacle_Avoidance3.cpp:139-173 | a region in which every pixel is near makes the robot stop |
| `Avoidance.NothingNearGoesStraight` | ROS_Obstacle_Avoidance3.cpp:268-358 | a region at least two columns wide with no near pixel sends the robot straight ahead |
| `Avoidance.OneColumnStops` | ROS_Obstacle_Avoidance3.cpp:249-358 | a region one column wide makes the robot stop whatever its pixels: its left and centre thirds are empty, so they read NaN |

## Left out

- The ROS plumbing is not modelled: the subscription, the publisher, the
  cv_bridge conversion, the OpenCV window and `main`. The frame and the
  message's `f` and `T` become parameters of `ProcessImage`, and the
  returned command stands for the published message.
- The console output is not modelled, and neither is the normalise-and-draw
  block (lines 106-132), because neither affects the globals or the
  command.
- Float rounding is not modelled. `f*T`, the depth quotient and the
  percentage are computed over the reals. A NaN or a -0.0 stored in the
  image is not representable.
- `Zones.SplitLines`: the third line is modelled as `(2*roi_w)/3`. The
  source computes `roi_w*(2.0/3)` in double and truncates. The model assumes
  the rounding never takes that product below an exact integer.
- `Frame.Pixel`: every read outside the image gives 0.0. In the source,
  `cv::Mat::at` checks its indices only in debug builds, and the image that
  cv_bridge copies is one continuous row-major buffer. So in a release build
  a read of column `width` in row y < height-1 returns pixel (y+1, 0). Only
  reads of row `height` and the read (height-1, width) leave the buffer.
  - The model does not capture that wrap-around.
  - When column 0 holds a nonzero, the bottom-row scan (line 221) and the
    right-column scan (line 238) can stop earlier in the source than in the
    model. For example, take the 4x3 frame with rows [0,1,1], [0,1,0],
    [1,0,0] and [0,0,0]. The model finds columns 0..1, so `roi_w` is 1 and
    the robot stops. The source's right-column scan reads pixel (2, 0) at
    (1, 3) and keeps `x_end` at 3, so `roi_w` is 3.
- `Avoidance.ImageConverter.CalculateCorners` and
  `Avoidance.ImageConverter.ProcessImage` require `Frame.ScansTerminate`:
  some nonzero pixel has a nonzero pixel strictly above it and another
  strictly left of it.
  - Without such a pixel the model's scans would never stop. Examples are
    an all-zero frame, a frame whose nonzero pixels all lie in one row or
    one column, and one whose nonzero pixels all lie in the top nonzero row
    or the leftmost nonzero column, such as (0,1), (0,2), (1,0) and (2,0).
  - The model does not describe those runs. In the source those scans walk
    off the image buffer.
  - `Frame.RegionNeedsTermination` proves that such frames have no region,
    so the precondition is exactly the frames the model's scans finish on.
- The ghost parameters of the region finder's methods exist only for the
  proof. They name the witness pixels and change nothing in the computation.
- The scans store their results in helper methods (one per scan), and the
  pixel counter's loops are split the same way. The order of the updates is
  the source's.

## Behaviour of note

- A region in which every pixel is near makes the robot stop: every zone
  reads 100% or NaN, so no section is clear (`Avoidance.AllNearStops`).
- A region one column wide makes the robot stop whatever its pixels
  (`Avoidance.OneColumnStops`). Such a region is reachable: in the model
  the 3x3 frame with rows [1,0,0], [0,1,0] and [0,0,0] has columns 0..1.
- With a positive `f*T`, a zero disparity is far (depth +inf), not near. It
  is near only when `f*T` is negative (`Frame.IsNear`).
- On an all-zero frame the first scan never stops. It looks for the first
  row that holds a nonzero (the comment at line 181), and no row does
  (`Frame.AllZeroHasNoRegion`).
- The end scans start one past the image (lines 215 and 232). Each end scan
  also skips the start row or start column (`x > x_start`, `y > y_start`).
  With the 0.0 padding, a frame with no zero pixel gets rows 0..height-1
  and columns 0..width-1 as its region, so its last row and last column are
  never counted (`Frame.FullFrameRegion`). In the source the column part
  differs once the frame has at least three rows. The read (height-2, width)
  is pixel (height-1, 0), which is nonzero, so `x_end` stays at `width`.
