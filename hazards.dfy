/**
 * The hazard classifier: from the scan counters and the device tilt, the one
 * hazard of the frame, chosen by a fixed first-match-wins priority order.
 */
module Hazards {
  import opened Wrappers
  import opened DepthScan

  /** The outcome of one frame, listed from highest to lowest priority. */
  datatype Hazard = Obstacle | TiltTooHigh | Staircase | DeepDropOff | TiltTooLow | Clear

  /** The two tilt warnings derived from the forward vector's vertical component. */
  datatype Tilt = Tilt(tooHigh: bool, tooLow: bool)

  /** The scan's stride in both axes. */
  const Step: nat := 8
  /** How much deeper (in millimetres) the upper half must be for a staircase. */
  const StairGapMm: nat := 500

  /**
   * The tilt warnings for a forward vector whose vertical component is
   * `forwardY`: too high above -0.40, too low below -0.75.
   */
  function TiltOf(forwardY: real): (t: Tilt)
    ensures !(t.tooHigh && t.tooLow)
    ensures !t.tooHigh && !t.tooLow <==> -0.75 <= forwardY <= -0.40
    ensures t.tooHigh ==> forwardY > -0.40
    ensures t.tooLow ==> forwardY < -0.75
  {
    Tilt(forwardY > -0.40, forwardY < -0.75)
  }

  /**
   * The pixel total the thresholds are fractions of: the product of the
   * floors of width/step and height/step. It is positive exactly when the
   * region is at least one step wide and one step high, while the scan
   * visits points as soon as the region is non-empty.
   */
  function TotalPixels(roi: Roi, step: nat): (r: nat)
    requires roi.Valid() && step >= 1
    ensures r > 0 <==> roi.endX - roi.startX >= step && roi.endY - roi.startY >= step
  {
    var cols, rows := WholeSteps(roi.endX - roi.startX, step), WholeSteps(roi.endY - roi.startY, step);
    FloorPositive(roi.endX - roi.startX, step);
    FloorPositive(roi.endY - roi.startY, step);
    MulPositive(cols, rows);
    cols * rows
  }

  /** How many whole steps fit in an extent (integer division). */
  function WholeSteps(extent: nat, step: nat): nat
    requires step >= 1
  {
    extent / step
  }

  /** Integer average of the upper half's readings, 0 when there are none. */
  function AverageUpper(st: ScanStats): (r: nat)
    ensures st.upperCount == 0 ==> r == 0
    ensures st.upperCount > 0 ==> r * st.upperCount <= st.upperSum < (r + 1) * st.upperCount
  {
    if st.upperCount > 0 then st.upperSum / st.upperCount else 0
  }

  /** Integer average of the lower half's readings, 0 when there are none. */
  function AverageLower(st: ScanStats): (r: nat)
    ensures st.lowerCount == 0 ==> r == 0
    ensures st.lowerCount > 0 ==> r * st.lowerCount <= st.lowerSum < (r + 1) * st.lowerCount
  {
    if st.lowerCount > 0 then st.lowerSum / st.lowerCount else 0
  }

  /** More than 15% of the total are close readings. */
  predicate ObstacleClose(st: ScanStats, total: nat) {
    100 * st.closePixels > 15 * total
  }

  /** More than 40% of the total are deep readings. */
  predicate DeepSurface(st: ScanStats, total: nat) {
    100 * st.deepPixels > 40 * total
  }

  /** Deep readings, and an upper half more than 500 mm deeper than the lower half. */
  predicate StairSignature(st: ScanStats, total: nat)
    ensures StairSignature(st, total) ==>
      st.upperCount > 0 && st.upperSum > StairGapMm * st.upperCount
  {
    DeepSurface(st, total) && AverageUpper(st) > AverageLower(st) + StairGapMm
  }

  /** The priority cascade: the first condition that holds decides. */
  function Classify(st: ScanStats, total: nat, tilt: Tilt): (h: Hazard)
    ensures Triggered(h, st, total, tilt)
    ensures h == Obstacle <==> ObstacleClose(st, total)
  {
    if ObstacleClose(st, total) then Obstacle
    else if tilt.tooHigh then TiltTooHigh
    else if StairSignature(st, total) then Staircase
    else if DeepSurface(st, total) then DeepDropOff
    else if tilt.tooLow then TiltTooLow
    else Clear
  }

  // ---------------------------------------------------------------------
  // The cascade as a rule table
  // ---------------------------------------------------------------------

  /** The position of each outcome in the priority order. */
  function Rank(h: Hazard): nat {
    match h
    case Obstacle => 0
    case TiltTooHigh => 1
    case Staircase => 2
    case DeepDropOff => 3
    case TiltTooLow => 4
    case Clear => 5
  }

  /** The condition under which each outcome applies, taken on its own. */
  predicate Triggered(h: Hazard, st: ScanStats, total: nat, tilt: Tilt) {
    match h
    case Obstacle => ObstacleClose(st, total)
    case TiltTooHigh => tilt.tooHigh
    case Staircase => StairSignature(st, total)
    case DeepDropOff => DeepSurface(st, total)
    case TiltTooLow => tilt.tooLow
    case Clear => true
  }

  /** `h` applies, and no outcome of higher priority does. */
  predicate FirstMatch(h: Hazard, st: ScanStats, total: nat, tilt: Tilt) {
    Triggered(h, st, total, tilt) &&
    forall g: Hazard :: Rank(g) < Rank(h) ==> !Triggered(g, st, total, tilt)
  }

  /** The cascade returns the highest-priority outcome whose condition holds. */
  lemma ClassifyIsFirstMatch(st: ScanStats, total: nat, tilt: Tilt)
    ensures FirstMatch(Classify(st, total, tilt), st, total, tilt)
  {
    var h := Classify(st, total, tilt);
    forall g: Hazard | Rank(g) < Rank(h)
      ensures !Triggered(g, st, total, tilt)
    {
      match g
      case Obstacle =>
      case TiltTooHigh =>
      case Staircase =>
      case DeepDropOff =>
      case TiltTooLow =>
      case Clear =>
    }
  }

  /** Exactly one outcome per frame: no other outcome is a first match. */
  lemma FirstMatchIsUnique(h: Hazard, st: ScanStats, total: nat, tilt: Tilt)
    requires FirstMatch(h, st, total, tilt)
    ensures h == Classify(st, total, tilt)
  {
    var c := Classify(st, total, tilt);
    ClassifyIsFirstMatch(st, total, tilt);
    if Rank(h) == Rank(c) {
      match h
      case Obstacle =>
      case TiltTooHigh =>
      case Staircase =>
      case DeepDropOff =>
      case TiltTooLow =>
      case Clear =>
    }
  }

  /**
   * The priorities the cascade promises: an obstacle wins whatever else
   * holds; a high tilt outranks stairs and drop-offs; a low tilt only
   * applies when nothing above it does; a staircase needs both the deep
   * readings and the depth gap, and deep readings without the gap are a
   * drop-off.
   */
  lemma CascadePriorities(st: ScanStats, total: nat, tilt: Tilt)
    ensures ObstacleClose(st, total) ==> Classify(st, total, tilt) == Obstacle
    ensures !ObstacleClose(st, total) && tilt.tooHigh ==> Classify(st, total, tilt) == TiltTooHigh
    ensures Classify(st, total, tilt) == TiltTooLow ==>
      tilt.tooLow && !tilt.tooHigh && !ObstacleClose(st, total) && !DeepSurface(st, total)
    ensures Classify(st, total, tilt) == Staircase ==>
      DeepSurface(st, total) && AverageUpper(st) > AverageLower(st) + StairGapMm
    ensures (!ObstacleClose(st, total) && !tilt.tooHigh && DeepSurface(st, total) &&
             AverageUpper(st) <= AverageLower(st) + StairGapMm)
            ==> Classify(st, total, tilt) == DeepDropOff
    ensures Classify(st, total, tilt) == Clear <==>
      forall g: Hazard :: g != Clear ==> !Triggered(g, st, total, tilt)
  {
    ClassifyIsFirstMatch(st, total, tilt);
    if Classify(st, total, tilt) != Clear {
      assert Triggered(Classify(st, total, tilt), st, total, tilt);
    }
  }

  // ---------------------------------------------------------------------
  // The pixel total against the points actually visited
  // ---------------------------------------------------------------------

  /** The floor of extent/step never exceeds the number of visited lines. */
  lemma StepsAtLeastFloor(lo: nat, hi: nat, step: nat)
    requires step >= 1 && lo <= hi
    ensures WholeSteps(hi - lo, step) <= Steps(lo, hi, step)
  {
    var w, n, q := hi - lo, Steps(lo, hi, step), (hi - lo) / step;
    StepsIsCeiling(lo, hi, step);
    assert q * step <= w;
    if q > n {
      assert (n + 1) * step == n * step + step;
      MulLeft(n + 1, q, step);
      assert false;
    }
  }

  /** Products of naturals grow with both factors. */
  lemma MulBoth(a: nat, b: nat, c: nat, d: nat)
    requires a <= c && b <= d
    ensures a * b <= c * d
  {
    MulLeft(a, c, b);
    MulLeft(b, d, c);
  }

  /** A product of naturals is positive exactly when both factors are. */
  lemma MulPositive(a: nat, b: nat)
    ensures a * b > 0 <==> a > 0 && b > 0
  {
    if a > 0 && b > 0 {
      MulLeft(1, a, b);
    }
  }

  /** The floor of w/step is positive exactly when w reaches one step. */
  lemma FloorPositive(w: nat, step: nat)
    requires step >= 1
    ensures WholeSteps(w, step) > 0 <==> w >= step
  {
    var q, r := w / step, w % step;
    assert w == q * step + r && r < step;
    if q > 0 {
      MulLeft(1, q, step);
    }
  }

  /**
   * The pixel total never exceeds the number of points the scan visits
   * (the visited lines per axis are the ceiling of extent/step, the total
   * uses the floor).
   */
  lemma TotalPixelsAtMostVisited(roi: Roi, step: nat)
    requires roi.Valid() && step >= 1
    ensures TotalPixels(roi, step) <= |Grid(roi, step)|
  {
    var cols, rows := Steps(roi.startX, roi.endX, step), Steps(roi.startY, roi.endY, step);
    GridSize(roi, step);
    StepsAtLeastFloor(roi.startX, roi.endX, step);
    StepsAtLeastFloor(roi.startY, roi.endY, step);
    MulBoth(WholeSteps(roi.endX - roi.startX, step), WholeSteps(roi.endY - roi.startY, step), cols, rows);
  }

  /**
   * A region of zero width or height reads nothing, so no counter moves and
   * no average divides by zero: only a tilt warning or Clear can result.
   */
  lemma EmptyRoiOnlyTilt(plane: Plane, roi: Roi, tilt: Tilt)
    requires roi.Valid() && (roi.startX == roi.endX || roi.startY == roi.endY)
    ensures ScanSpec(plane, roi, Step) == Some(NoStats)
    ensures Classify(NoStats, TotalPixels(roi, Step), tilt) ==
      if tilt.tooHigh then TiltTooHigh else if tilt.tooLow then TiltTooLow else Clear
  {
    EmptyRoiScan(plane, roi, Step);
  }

  /**
   * A region narrower than one step still has a column visited in every
   * row, but its pixel total is 0; then a single close reading already
   * makes the frame an Obstacle.
   */
  lemma NarrowRoiSingleCloseReading(plane: Plane, roi: Roi, tilt: Tilt)
    requires roi.Valid() && roi.startX < roi.endX < roi.startX + Step && roi.startY < roi.endY
    requires ScanSpec(plane, roi, Step).Some? && ScanSpec(plane, roi, Step).value.closePixels > 0
    ensures |Grid(roi, Step)| > 0 && TotalPixels(roi, Step) == 0
    ensures Classify(ScanSpec(plane, roi, Step).value, TotalPixels(roi, Step), tilt) == Obstacle
  {
    GridSize(roi, Step);
  }
}
