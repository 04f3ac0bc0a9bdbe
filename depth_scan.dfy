/**
 * The depth-buffer scanner of the per-frame hazard engine: decoding one
 * 16-bit distance from the depth plane, and walking a strided grid over the
 * region of interest while accumulating the statistics the classifier uses.
 */
module DepthScan {
  import opened Wrappers

  /** A reading below this distance (in millimetres) is a close pixel. */
  const ObstacleLimitMm: nat := 1200
  /** A reading beyond this distance (in millimetres) is a deep pixel. */
  const DropOffLimitMm: nat := 4000

  /** The depth plane of one frame: its bytes and its row and pixel strides. */
  datatype Plane = Plane(bytes: seq<bv8>, rowStride: nat, pixelStride: nat)

  /**
   * Integer pixel bounds of the region of interest: columns
   * [startX, endX) and rows [startY, endY).
   */
  datatype Roi = Roi(startX: nat, endX: nat, startY: nat, endY: nat) {
    predicate Valid() {
      startX <= endX && startY <= endY
    }

    /** The row that splits the region into its upper and lower halves. */
    function MidY(): int {
      startY + (endY - startY) / 2
    }
  }

  /** One grid point visited by the scan. */
  datatype Point = Point(x: nat, y: nat)

  /** One decoded reading: its distance and whether its row lies above MidY. */
  datatype Sample = Sample(distance: nat, upper: bool)

  /** The counters the scan accumulates. */
  datatype ScanStats = ScanStats(
    closePixels: nat,
    deepPixels: nat,
    upperSum: nat,
    upperCount: nat,
    lowerSum: nat,
    lowerCount: nat)

  const NoStats := ScanStats(0, 0, 0, 0, 0, 0)

  // ---------------------------------------------------------------------
  // Decoding one distance
  // ---------------------------------------------------------------------

  /**
   * The little-endian unsigned 16-bit value at `index`, assembled as
   * `(high shl 8) or low`; absent when either byte lies outside the buffer
   * (where the buffer read throws).
   */
  function DistanceAt(buf: seq<bv8>, index: int): (r: Option<nat>)
    ensures r.Some? <==> 0 <= index && index + 1 < |buf|
    ensures r.Some? ==> r.value == buf[index] as nat + 256 * buf[index + 1] as nat
    ensures r.Some? ==> r.value <= 65535
  {
    if 0 <= index && index + 1 < |buf| then
      Some((((buf[index + 1] as bv16) << 8) | buf[index] as bv16) as nat)
    else
      None
  }

  /** Decoding reads bytes `index` and `index + 1` and nothing else. */
  lemma DistanceAtReadsTwoBytes(buf: seq<bv8>, buf': seq<bv8>, index: int)
    requires 0 <= index && index + 1 < |buf| && index + 1 < |buf'|
    requires buf[index] == buf'[index] && buf[index + 1] == buf'[index + 1]
    ensures DistanceAt(buf, index) == DistanceAt(buf', index)
  {
  }

  // ---------------------------------------------------------------------
  // The grid of visited points
  // ---------------------------------------------------------------------

  /** The points of row `y` from column `x` on: x, x+step, ... below endX. */
  function Row(roi: Roi, step: nat, y: nat, x: nat): seq<Point>
    requires step >= 1
    decreases roi.endX - x
  {
    if x < roi.endX then [Point(x, y)] + Row(roi, step, y, x + step) else []
  }

  /** The rows y, y+step, ... below endY, in the order the scan visits them. */
  function RowsFrom(roi: Roi, step: nat, y: nat): seq<Point>
    requires step >= 1
    decreases roi.endY - y
  {
    if y < roi.endY then Row(roi, step, y, roi.startX) + RowsFrom(roi, step, y + step) else []
  }

  /** Every point the scan visits, row by row. */
  function Grid(roi: Roi, step: nat): seq<Point>
    requires step >= 1
  {
    RowsFrom(roi, step, roi.startY)
  }

  /** How many of lo, lo+step, ... lie below hi. */
  function Steps(lo: nat, hi: nat, step: nat): nat
    requires step >= 1
    decreases hi - lo
  {
    if lo < hi then 1 + Steps(lo + step, hi, step) else 0
  }

  /** The byte offset of a point in the plane. */
  function Offset(plane: Plane, p: Point): nat {
    p.y * plane.rowStride + p.x * plane.pixelStride
  }

  /** Both bytes of the point's reading lie inside the buffer. */
  predicate Readable(plane: Plane, p: Point) {
    Offset(plane, p) + 1 < |plane.bytes|
  }

  predicate AllReadable(plane: Plane, ps: seq<Point>) {
    forall i :: 0 <= i < |ps| ==> Readable(plane, ps[i])
  }

  /** The reading at a point, tagged with the half of the region it falls in. */
  function SampleAt(plane: Plane, roi: Roi, p: Point): Sample
    requires Readable(plane, p)
  {
    Sample(DistanceAt(plane.bytes, Offset(plane, p)).value, p.y < roi.MidY())
  }

  /** The readings at the given points, in order. */
  function Samples(plane: Plane, roi: Roi, ps: seq<Point>): (ss: seq<Sample>)
    requires AllReadable(plane, ps)
    ensures |ss| == |ps|
  {
    if |ps| == 0 then [] else Samples(plane, roi, ps[..|ps| - 1]) + [SampleAt(plane, roi, ps[|ps| - 1])]
  }

  // ---------------------------------------------------------------------
  // Accumulating the counters
  // ---------------------------------------------------------------------

  /** The counter updates for one reading; a zero reading is skipped. */
  function Accumulate(st: ScanStats, s: Sample): (r: ScanStats)
    ensures s.distance == 0 ==> r == st
    ensures r.upperCount + r.lowerCount == st.upperCount + st.lowerCount + (if s.distance > 0 then 1 else 0)
    ensures r.upperSum + r.lowerSum == st.upperSum + st.lowerSum + s.distance
    ensures r.closePixels == st.closePixels + (if 0 < s.distance < ObstacleLimitMm then 1 else 0)
    ensures r.deepPixels == st.deepPixels + (if s.distance > DropOffLimitMm then 1 else 0)
  {
    if s.distance <= 0 then st
    else
      var st1 := if 1 <= s.distance < ObstacleLimitMm then st.(closePixels := st.closePixels + 1) else st;
      var st2 := if s.distance > DropOffLimitMm then st1.(deepPixels := st1.deepPixels + 1) else st1;
      if s.upper then st2.(upperSum := st2.upperSum + s.distance, upperCount := st2.upperCount + 1)
      else st2.(lowerSum := st2.lowerSum + s.distance, lowerCount := st2.lowerCount + 1)
  }

  /** The counters after accumulating the readings in order. */
  function Tally(ss: seq<Sample>): ScanStats {
    if |ss| == 0 then NoStats else Accumulate(Tally(ss[..|ss| - 1]), ss[|ss| - 1])
  }

  /**
   * What one scan of the region produces: the counters over every grid
   * point, or nothing when some read falls outside the buffer (the read
   * throws and the frame is abandoned).
   */
  function ScanSpec(plane: Plane, roi: Roi, step: nat): Option<ScanStats>
    requires step >= 1
  {
    var grid := Grid(roi, step);
    if AllReadable(plane, grid) then Some(Tally(Samples(plane, roi, grid))) else None
  }

  /** Visiting one more readable point accumulates exactly its reading. */
  lemma TallyAppend(plane: Plane, roi: Roi, ps: seq<Point>, p: Point)
    requires AllReadable(plane, ps) && Readable(plane, p)
    ensures AllReadable(plane, ps + [p])
    ensures Tally(Samples(plane, roi, ps + [p])) == Accumulate(Tally(Samples(plane, roi, ps)), SampleAt(plane, roi, p))
  {
    var qs := ps + [p];
    assert qs[..|qs| - 1] == ps;
    var ss := Samples(plane, roi, qs);
    assert ss[..|ss| - 1] == Samples(plane, roi, ps);
  }

  /** Entering row `y`: the rest of the grid is this row, then the rows below it. */
  lemma EnterRow(roi: Roi, step: nat, visited: seq<Point>, y: nat)
    requires step >= 1 && y < roi.endY
    requires visited + RowsFrom(roi, step, y) == Grid(roi, step)
    ensures visited + Row(roi, step, y, roi.startX) + RowsFrom(roi, step, y + step) == Grid(roi, step)
  {
    assert RowsFrom(roi, step, y) == Row(roi, step, y, roi.startX) + RowsFrom(roi, step, y + step);
    assert visited + Row(roi, step, y, roi.startX) + RowsFrom(roi, step, y + step)
        == visited + (Row(roi, step, y, roi.startX) + RowsFrom(roi, step, y + step));
  }

  /** Visiting point (x, y): it is the next point of the row, and the rest follows it. */
  lemma VisitPoint(roi: Roi, step: nat, seen: seq<Point>, y: nat, x: nat, row: seq<Point>)
    requires step >= 1 && x < roi.endX
    requires seen + Row(roi, step, y, x) == row
    ensures |seen| < |row| && row[|seen|] == Point(x, y)
    ensures seen + [Point(x, y)] + Row(roi, step, y, x + step) == row
  {
    assert Row(roi, step, y, x) == [Point(x, y)] + Row(roi, step, y, x + step);
    assert row == seen + ([Point(x, y)] + Row(roi, step, y, x + step));
  }

  // ---------------------------------------------------------------------
  // The scan itself
  // ---------------------------------------------------------------------

  /** An unreadable point of a prefix of the grid makes the grid unreadable. */
  lemma UnreadableInGrid(plane: Plane, row: seq<Point>, rest: seq<Point>, grid: seq<Point>, i: nat)
    requires row + rest == grid && i < |row| && !Readable(plane, row[i])
    ensures !AllReadable(plane, grid)
  {
    assert grid[i] == row[i];
  }

  /**
   * The counter updates of the scan loop for one decoded reading: a zero
   * reading is skipped; otherwise it may count as close and as deep, and it
   * joins the upper or the lower band.
   */
  method CountReading(st: ScanStats, distanceMm: nat, upper: bool) returns (r: ScanStats)
    ensures r == Accumulate(st, Sample(distanceMm, upper))
  {
    r := st;
    if distanceMm > 0 {
      if 1 <= distanceMm < ObstacleLimitMm {
        r := r.(closePixels := r.closePixels + 1);
      }
      if distanceMm > DropOffLimitMm {
        r := r.(deepPixels := r.deepPixels + 1);
      }
      if upper {
        r := r.(upperSum := r.upperSum + distanceMm, upperCount := r.upperCount + 1);
      } else {
        r := r.(lowerSum := r.lowerSum + distanceMm, lowerCount := r.lowerCount + 1);
      }
    }
  }

  /**
   * The inner loop of the scan: row `y`, from the region's left edge, after
   * the points `visited` have been counted into `stats`. A read outside the
   * buffer ends the whole scan.
   */
  method ScanRow(plane: Plane, roi: Roi, step: nat, y: nat, stats: ScanStats, ghost visited: seq<Point>)
    returns (r: Option<ScanStats>)
    requires step >= 1
    requires visited + Row(roi, step, y, roi.startX) + RowsFrom(roi, step, y + step) == Grid(roi, step)
    requires AllReadable(plane, visited) && stats == Tally(Samples(plane, roi, visited))
    ensures r.None? ==> !AllReadable(plane, Grid(roi, step))
    ensures r.Some? ==> AllReadable(plane, visited + Row(roi, step, y, roi.startX))
    ensures r.Some? ==> r.value == Tally(Samples(plane, roi, visited + Row(roi, step, y, roi.startX)))
  {
    ghost var row := visited + Row(roi, step, y, roi.startX);
    var midY := roi.startY + (roi.endY - roi.startY) / 2;
    var acc := stats;
    ghost var seen := visited;
    var x := roi.startX;
    while x < roi.endX
      invariant seen + Row(roi, step, y, x) == row
      invariant AllReadable(plane, seen)
      invariant acc == Tally(Samples(plane, roi, seen))
      decreases roi.endX - x
    {
      var p := Point(x, y);
      VisitPoint(roi, step, seen, y, x, row);
      var index := y * plane.rowStride + x * plane.pixelStride;
      var read := DistanceAt(plane.bytes, index);
      assert index == Offset(plane, p);
      if read.None? {
        UnreadableInGrid(plane, row, RowsFrom(roi, step, y + step), Grid(roi, step), |seen|);
        return None;
      }
      assert midY == roi.MidY();
      TallyAppend(plane, roi, seen, p);
      acc := CountReading(acc, read.value, y < midY);
      seen := seen + [p];
      x := x + step;
    }
    assert seen == row;
    return Some(acc);
  }

  /**
   * The nested strided scan of the region: for every visited point, decode
   * its distance, skip zeros, and update the close, deep, upper and lower
   * counters.
   */
  method ScanDepth(plane: Plane, roi: Roi, step: nat) returns (r: Option<ScanStats>)
    requires roi.Valid() && step >= 1
    ensures r == ScanSpec(plane, roi, step)
  {
    var stats := NoStats;
    ghost var visited: seq<Point> := [];
    var y := roi.startY;
    while y < roi.endY
      invariant visited + RowsFrom(roi, step, y) == Grid(roi, step)
      invariant AllReadable(plane, visited)
      invariant stats == Tally(Samples(plane, roi, visited))
      decreases roi.endY - y
    {
      EnterRow(roi, step, visited, y);
      var row := ScanRow(plane, roi, step, y, stats, visited);
      if row.None? {
        return None;
      }
      stats := row.value;
      visited := visited + Row(roi, step, y, roi.startX);
      y := y + step;
    }
    assert RowsFrom(roi, step, y) == [];
    assert visited == visited + RowsFrom(roi, step, y);
    return Some(stats);
  }

  // ---------------------------------------------------------------------
  // What the counters mean
  // ---------------------------------------------------------------------

  predicate IsValid(s: Sample) { s.distance > 0 }
  predicate IsClose(s: Sample) { 1 <= s.distance < ObstacleLimitMm }
  predicate IsDeep(s: Sample) { s.distance > DropOffLimitMm }
  predicate IsUpperValid(s: Sample) { s.distance > 0 && s.upper }
  predicate IsLowerValid(s: Sample) { s.distance > 0 && !s.upper }

  /** How many readings satisfy `p`. */
  function CountWhere(ss: seq<Sample>, p: Sample -> bool): nat {
    if |ss| == 0 then 0 else CountWhere(ss[..|ss| - 1], p) + (if p(ss[|ss| - 1]) then 1 else 0)
  }

  /** The sum of the distances of the readings that satisfy `p`. */
  function SumWhere(ss: seq<Sample>, p: Sample -> bool): nat {
    if |ss| == 0 then 0 else SumWhere(ss[..|ss| - 1], p) + (if p(ss[|ss| - 1]) then ss[|ss| - 1].distance else 0)
  }

  /** The readings without the zero (invalid) ones, in order. */
  function NonZero(ss: seq<Sample>): (r: seq<Sample>)
    ensures |r| <= |ss|
  {
    if |ss| == 0 then []
    else NonZero(ss[..|ss| - 1]) + (if ss[|ss| - 1].distance > 0 then [ss[|ss| - 1]] else [])
  }

  /**
   * Each counter counts (or sums) exactly the readings of its kind: close
   * readings in [1, 1200), deep readings above 4000, and the non-zero
   * readings of the upper and of the lower half.
   */
  lemma {:induction false} TallyCounts(ss: seq<Sample>)
    ensures Tally(ss) == ScanStats(
      CountWhere(ss, IsClose), CountWhere(ss, IsDeep),
      SumWhere(ss, IsUpperValid), CountWhere(ss, IsUpperValid),
      SumWhere(ss, IsLowerValid), CountWhere(ss, IsLowerValid))
  {
    if |ss| > 0 {
      TallyCounts(ss[..|ss| - 1]);
    }
  }

  /** Zero readings touch no counter: the tally ignores them entirely. */
  lemma {:induction false} TallyIgnoresZeros(ss: seq<Sample>)
    ensures Tally(NonZero(ss)) == Tally(ss)
  {
    if |ss| > 0 {
      var init, last := ss[..|ss| - 1], ss[|ss| - 1];
      TallyIgnoresZeros(init);
      if last.distance > 0 {
        var nz := NonZero(ss);
        assert nz == NonZero(init) + [last];
        assert nz[..|nz| - 1] == NonZero(init);
      } else {
        assert NonZero(ss) == NonZero(init);
      }
    }
  }

  /**
   * The upper and lower counts split the non-zero readings between them,
   * which are at most all readings; and no reading is both close and deep.
   */
  lemma {:induction false} CountsPartition(ss: seq<Sample>)
    ensures CountWhere(ss, IsUpperValid) + CountWhere(ss, IsLowerValid) == CountWhere(ss, IsValid)
    ensures CountWhere(ss, IsValid) == |NonZero(ss)| <= |ss|
    ensures CountWhere(ss, IsClose) + CountWhere(ss, IsDeep) <= CountWhere(ss, IsValid)
  {
    if |ss| > 0 {
      CountsPartition(ss[..|ss| - 1]);
    }
  }

  /**
   * After a complete scan: the upper and lower counts together are the
   * number of non-zero readings, at most the number of visited points, and
   * they bound the close and deep counts together.
   */
  lemma ScanCounters(plane: Plane, roi: Roi, step: nat)
    requires step >= 1 && ScanSpec(plane, roi, step).Some?
    ensures var st := ScanSpec(plane, roi, step).value;
            var ss := Samples(plane, roi, Grid(roi, step));
            && st.upperCount + st.lowerCount == |NonZero(ss)|
            && st.upperCount + st.lowerCount <= |Grid(roi, step)|
            && st.closePixels + st.deepPixels <= st.upperCount + st.lowerCount
  {
    var ss := Samples(plane, roi, Grid(roi, step));
    TallyCounts(ss);
    CountsPartition(ss);
  }

  // ---------------------------------------------------------------------
  // The shape and size of the grid
  // ---------------------------------------------------------------------

  /** The i-th line of a grid that starts at `start` and advances by `step`. */
  function GridLine(start: nat, step: nat, i: nat): nat {
    start + i * step
  }

  /** `v` is one of start, start+step, start+2*step, ... */
  ghost predicate OnLattice(v: nat, start: nat, step: nat) {
    exists i: nat :: v == GridLine(start, step, i)
  }

  /** A lattice value of start+step is a lattice value of start. */
  lemma LatticeShift(v: nat, start: nat, step: nat)
    requires OnLattice(v, start + step, step)
    ensures OnLattice(v, start, step)
  {
    var i: nat :| v == GridLine(start + step, step, i);
    assert v == GridLine(start, step, i + 1);
  }

  lemma {:induction false} RowShape(roi: Roi, step: nat, y: nat, x: nat)
    requires step >= 1
    decreases roi.endX - x
    ensures forall p :: p in Row(roi, step, y, x) ==>
      p.y == y && x <= p.x < roi.endX && OnLattice(p.x, x, step)
  {
    if x < roi.endX {
      RowShape(roi, step, y, x + step);
      assert x == GridLine(x, step, 0);
      forall p | p in Row(roi, step, y, x + step)
        ensures OnLattice(p.x, x, step)
      {
        LatticeShift(p.x, x, step);
      }
    }
  }

  lemma {:induction false} RowsShape(roi: Roi, step: nat, y: nat)
    requires step >= 1
    decreases roi.endY - y
    ensures forall p :: p in RowsFrom(roi, step, y) ==>
      roi.startX <= p.x < roi.endX && OnLattice(p.x, roi.startX, step) &&
      y <= p.y < roi.endY && OnLattice(p.y, y, step)
  {
    if y < roi.endY {
      RowShape(roi, step, y, roi.startX);
      RowsShape(roi, step, y + step);
      assert y == GridLine(y, step, 0);
      forall p | p in RowsFrom(roi, step, y + step)
        ensures OnLattice(p.y, y, step)
      {
        LatticeShift(p.y, y, step);
      }
    }
  }

  /**
   * Every visited point is (startX + i*step, startY + j*step) for some
   * i, j >= 0, and lies inside the region.
   */
  lemma GridShape(roi: Roi, step: nat)
    requires step >= 1
    ensures forall p :: p in Grid(roi, step) ==>
      && roi.startX <= p.x < roi.endX && OnLattice(p.x, roi.startX, step)
      && roi.startY <= p.y < roi.endY && OnLattice(p.y, roi.startY, step)
  {
    RowsShape(roi, step, roi.startY);
  }

  lemma {:induction false} RowSize(roi: Roi, step: nat, y: nat, x: nat)
    requires step >= 1
    decreases roi.endX - x
    ensures |Row(roi, step, y, x)| == Steps(x, roi.endX, step)
  {
    if x < roi.endX {
      RowSize(roi, step, y, x + step);
    }
  }

  lemma {:induction false} RowsSize(roi: Roi, step: nat, y: nat)
    requires step >= 1
    decreases roi.endY - y
    ensures |RowsFrom(roi, step, y)| == Steps(y, roi.endY, step) * Steps(roi.startX, roi.endX, step)
  {
    if y < roi.endY {
      RowSize(roi, step, y, roi.startX);
      RowsSize(roi, step, y + step);
    }
  }

  /**
   * The number of lattice lines below `hi` is the ceiling of (hi - lo)/step:
   * they cover the whole extent, and one fewer would not.
   */
  lemma {:induction false} StepsIsCeiling(lo: nat, hi: nat, step: nat)
    requires step >= 1
    decreases hi - lo
    ensures Steps(lo, hi, step) * step >= hi - lo
    ensures lo < hi ==> (Steps(lo, hi, step) - 1) * step < hi - lo
  {
    if lo < hi {
      StepsIsCeiling(lo + step, hi, step);
      assert Steps(lo, hi, step) * step == step + Steps(lo + step, hi, step) * step;
    }
  }

  /**
   * The scan visits Steps(startX, endX) * Steps(startY, endY) points, that
   * is ceil(width/step) * ceil(height/step) by StepsIsCeiling.
   */
  lemma GridSize(roi: Roi, step: nat)
    requires step >= 1
    ensures |Grid(roi, step)| == Steps(roi.startX, roi.endX, step) * Steps(roi.startY, roi.endY, step)
    ensures |Grid(roi, step)| == 0 <==> roi.startX >= roi.endX || roi.startY >= roi.endY
  {
    RowsSize(roi, step, roi.startY);
  }

  /** A region of zero width or height is scanned without reading anything. */
  lemma EmptyRoiScan(plane: Plane, roi: Roi, step: nat)
    requires step >= 1 && roi.Valid()
    requires roi.startX == roi.endX || roi.startY == roi.endY
    ensures ScanSpec(plane, roi, step) == Some(NoStats)
  {
    GridSize(roi, step);
  }

  lemma MulLeft(a: nat, b: nat, c: nat)
    requires a <= b
    ensures a * c <= b * c
  {
  }

  /**
   * When the buffer holds the reading of the last row's last column, every
   * read of the scan is in bounds, so the scan completes.
   */
  lemma ScanInBounds(plane: Plane, roi: Roi, step: nat)
    requires step >= 1 && roi.Valid()
    requires roi.startX < roi.endX && roi.startY < roi.endY ==>
      |plane.bytes| >= (roi.endY - 1) * plane.rowStride + (roi.endX - 1) * plane.pixelStride + 2
    ensures AllReadable(plane, Grid(roi, step))
    ensures ScanSpec(plane, roi, step).Some?
  {
    var grid := Grid(roi, step);
    GridShape(roi, step);
    forall i | 0 <= i < |grid|
      ensures Readable(plane, grid[i])
    {
      var p := grid[i];
      assert p in grid;
      MulLeft(p.y, roi.endY - 1, plane.rowStride);
      MulLeft(p.x, roi.endX - 1, plane.pixelStride);
    }
  }
}
