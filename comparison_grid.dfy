/** The bounding-box raster of the comparison page (confronto-comune-vs-provincia.jsx):
    the metre/degree conversion, `calcGrid`, which counts lattice points over
    a bounding box, and the point list that `MiniGrid` draws, capped at 300. */
module ComparisonGrid {
  import opened Lattice

  /** A bounding box in degrees, as the page's `bounds` objects hold it. */
  datatype Box = Box(north: real, south: real, west: real, east: real)

  /** `metersToDegLat`: the latitude span of `m` metres, one degree being
      111320 metres. */
  function MetersToDegLat(m: real): (d: real)
    ensures d * 111320.0 == m
    ensures m > 0.0 ==> d > 0.0
  {
    m / 111320.0
  }

  /** `metersToDegLng`: the longitude span of `m` metres at latitude `lat`,
      where a degree is 111320 metres times the cosine of the latitude. */
  function MetersToDegLng(m: real, lat: real, cosDeg: real -> real): (d: real)
    requires CosPositive(cosDeg)
    ensures d * (111320.0 * cosDeg(lat)) == m
    ensures m > 0.0 ==> d > 0.0
  {
    var c := 111320.0 * cosDeg(lat);
    assert c > 0.0;
    PositiveQuotient(m, c);
    m / c
  }

  lemma PositiveQuotient(m: real, c: real)
    requires c > 0.0
    ensures (m / c) * c == m
    ensures m > 0.0 ==> m / c > 0.0
  {
  }

  /** Raster step in metres: two radii times the overlap factor. */
  function StepMeters(radiusM: real, overlap: real): real {
    radiusM * 2.0 * overlap
  }

  function LatStep(radiusM: real, overlap: real): real {
    MetersToDegLat(StepMeters(radiusM, overlap))
  }

  /** Longitude step, converted at the box's mid-latitude. */
  function LngStep(b: Box, radiusM: real, overlap: real, cosDeg: real -> real): real
    requires CosPositive(cosDeg)
  {
    MetersToDegLng(StepMeters(radiusM, overlap), (b.north + b.south) / 2.0, cosDeg)
  }

  /** Number of rows: latitudes south + i * latStep that are <= north. */
  function Rows(b: Box, radiusM: real, overlap: real): nat
    requires StepMeters(radiusM, overlap) > 0.0
  {
    Count(b.south, b.north, LatStep(radiusM, overlap))
  }

  /** Number of columns: longitudes west + j * lngStep that are <= east. */
  function Cols(b: Box, radiusM: real, overlap: real, cosDeg: real -> real): nat
    requires StepMeters(radiusM, overlap) > 0.0 && CosPositive(cosDeg)
  {
    Count(b.west, b.east, LngStep(b, radiusM, overlap, cosDeg))
  }

  /** The number `calcGrid` returns, in exact arithmetic: rows times columns. */
  function GridCount(b: Box, radiusM: real, overlap: real, cosDeg: real -> real): nat
    requires StepMeters(radiusM, overlap) > 0.0 && CosPositive(cosDeg)
  {
    Rows(b, radiusM, overlap) * Cols(b, radiusM, overlap, cosDeg)
  }

  /** `calcGrid(bounds, radiusM, overlap)`: two nested cursor loops, one count
      per visited lattice point. The step must be positive, or the source's
      loops never end. */
  method CalcGrid(b: Box, radiusM: real, overlap: real, cosDeg: real -> real) returns (count: nat)
    requires StepMeters(radiusM, overlap) > 0.0
    requires CosPositive(cosDeg)
    ensures count == GridCount(b, radiusM, overlap, cosDeg)
  {
    var step := radiusM * 2.0 * overlap;
    var latStep := MetersToDegLat(step);
    var midLat := (b.north + b.south) / 2.0;
    var lngStep := MetersToDegLng(step, midLat, cosDeg);
    ghost var rows := Count(b.south, b.north, latStep);
    ghost var cols := Count(b.west, b.east, lngStep);
    count := 0;
    var i: nat := 0;
    while Coord(b.south, latStep, i) <= b.north
      invariant i <= rows
      invariant count == i * cols
      decreases rows - i
    {
      CoordWithin(b.south, b.north, latStep, i);
      var j: nat := 0;
      while Coord(b.west, lngStep, j) <= b.east
        invariant j <= cols
        invariant count == i * cols + j
        decreases cols - j
      {
        CoordWithin(b.west, b.east, lngStep, j);
        count := count + 1;
        j := j + 1;
      }
      CoordWithin(b.west, b.east, lngStep, j);
      i := i + 1;
    }
    CoordWithin(b.south, b.north, latStep, i);
  }

  /** A box with south <= north and west <= east always yields a point. */
  lemma GridAtLeastOne(b: Box, radiusM: real, overlap: real, cosDeg: real -> real)
    requires StepMeters(radiusM, overlap) > 0.0 && CosPositive(cosDeg)
    requires b.south <= b.north && b.west <= b.east
    ensures GridCount(b, radiusM, overlap, cosDeg) >= 1
  {
    CountPositive(b.south, b.north, LatStep(radiusM, overlap));
    CountPositive(b.west, b.east, LngStep(b, radiusM, overlap, cosDeg));
    ProductPositive(Rows(b, radiusM, overlap), Cols(b, radiusM, overlap, cosDeg));
  }

  lemma ProductPositive(x: nat, y: nat)
    requires x >= 1 && y >= 1
    ensures x * y >= 1
  {
  }

  /** For fixed bounds and overlap, a larger radius never gives more points. */
  lemma GridAntitoneInRadius(b: Box, small: real, large: real, overlap: real, cosDeg: real -> real)
    requires 0.0 < small <= large && overlap > 0.0 && CosPositive(cosDeg)
    ensures StepMeters(small, overlap) > 0.0
    ensures GridCount(b, large, overlap, cosDeg) <= GridCount(b, small, overlap, cosDeg)
  {
    StepMonotone(small, large, overlap);
    var s1, s2 := StepMeters(small, overlap), StepMeters(large, overlap);
    var midLat := (b.north + b.south) / 2.0;
    var c := 111320.0 * cosDeg(midLat);
    QuotientMonotone(s1, s2, 111320.0);
    QuotientMonotone(s1, s2, c);
    CountAntitone(b.south, b.north, LatStep(small, overlap), LatStep(large, overlap));
    CountAntitone(b.west, b.east, LngStep(b, small, overlap, cosDeg), LngStep(b, large, overlap, cosDeg));
    ProductMonotone(Rows(b, large, overlap), Rows(b, small, overlap),
                    Cols(b, large, overlap, cosDeg), Cols(b, small, overlap, cosDeg));
  }

  /** For fixed bounds and radius, a larger overlap factor lengthens the
      step, so it never gives more points. */
  lemma GridAntitoneInOverlap(b: Box, radiusM: real, small: real, large: real, cosDeg: real -> real)
    requires 0.0 < small <= large && radiusM > 0.0 && CosPositive(cosDeg)
    ensures StepMeters(radiusM, small) > 0.0
    ensures GridCount(b, radiusM, large, cosDeg) <= GridCount(b, radiusM, small, cosDeg)
  {
    StepMonotone(small, large, radiusM);
    assert StepMeters(radiusM, small) == StepMeters(small, radiusM);
    assert StepMeters(radiusM, large) == StepMeters(large, radiusM);
    var s1, s2 := StepMeters(radiusM, small), StepMeters(radiusM, large);
    var midLat := (b.north + b.south) / 2.0;
    var c := 111320.0 * cosDeg(midLat);
    QuotientMonotone(s1, s2, 111320.0);
    QuotientMonotone(s1, s2, c);
    CountAntitone(b.south, b.north, LatStep(radiusM, small), LatStep(radiusM, large));
    CountAntitone(b.west, b.east, LngStep(b, radiusM, small, cosDeg), LngStep(b, radiusM, large, cosDeg));
    ProductMonotone(Rows(b, radiusM, large), Rows(b, radiusM, small),
                    Cols(b, radiusM, large, cosDeg), Cols(b, radiusM, small, cosDeg));
  }

  lemma StepMonotone(small: real, large: real, overlap: real)
    requires 0.0 < small <= large && overlap > 0.0
    ensures 0.0 < StepMeters(small, overlap) <= StepMeters(large, overlap)
  {
  }

  lemma QuotientMonotone(x: real, y: real, c: real)
    requires 0.0 < x <= y && c > 0.0
    ensures 0.0 < x / c <= y / c
  {
  }

  lemma ProductMonotone(a: nat, b: nat, x: nat, y: nat)
    requires a <= b && x <= y
    ensures a * x <= b * y
  {
  }

  // ---------------------------------------------------------------------
  // MiniGrid

  /** The first `n` elements of `s` (all of them when there are fewer). */
  function Cap(s: seq<Point>, n: nat): (r: seq<Point>)
    ensures |r| == if |s| <= n then |s| else n
    ensures r == s[..|r|]
  {
    if |s| <= n then s else s[..n]
  }

  lemma CapPush(s: seq<Point>, p: Point, n: nat)
    ensures Cap(s + [p], n) == if |Cap(s, n)| < n then Cap(s, n) + [p] else Cap(s, n)
  {
    if |s| >= n {
      assert (s + [p])[..n] == s[..n];
    }
  }

  /** The cap on the number of points `MiniGrid` draws. */
  const MINI_GRID_CAP := 300

  /** The lattice `MiniGrid` walks (step 2 * radius * 0.7), in visiting order. */
  function MiniGridLattice(b: Box, radius: real, cosDeg: real -> real): seq<Point>
    requires StepMeters(radius, 0.7) > 0.0 && CosPositive(cosDeg)
  {
    RowMajor(Axis(b.south, LatStep(radius, 0.7), Rows(b, radius, 0.7)),
             Axis(b.west, LngStep(b, radius, 0.7, cosDeg), Cols(b, radius, 0.7, cosDeg)))
  }

  /** The point list of `MiniGrid`: the lattice in visiting order, cut off
      after the first 300 points; so it holds min(calcGrid, 300) points. */
  method MiniGridPoints(b: Box, radius: real, cosDeg: real -> real) returns (points: seq<Point>)
    requires StepMeters(radius, 0.7) > 0.0
    requires CosPositive(cosDeg)
    ensures points == Cap(MiniGridLattice(b, radius, cosDeg), MINI_GRID_CAP)
    ensures |points| == if GridCount(b, radius, 0.7, cosDeg) <= MINI_GRID_CAP
                         then GridCount(b, radius, 0.7, cosDeg) else MINI_GRID_CAP
  {
    var step := radius * 2.0 * 0.7;
    var latStep := MetersToDegLat(step);
    var midLat := (b.north + b.south) / 2.0;
    var lngStep := MetersToDegLng(step, midLat, cosDeg);
    ghost var lats := Axis(b.south, latStep, Count(b.south, b.north, latStep));
    ghost var lngs := Axis(b.west, lngStep, Count(b.west, b.east, lngStep));
    points := [];
    var i: nat := 0;
    while Coord(b.south, latStep, i) <= b.north
      invariant i <= |lats|
      invariant points == Cap(RowMajor(lats[..i], lngs), MINI_GRID_CAP)
      decreases |lats| - i
    {
      CoordWithin(b.south, b.north, latStep, i);
      var lat := Coord(b.south, latStep, i);
      var j: nat := 0;
      while Coord(b.west, lngStep, j) <= b.east
        invariant j <= |lngs|
        invariant points == Cap(RowMajor(lats[..i], lngs) + Row(lats[i], lngs)[..j], MINI_GRID_CAP)
        decreases |lngs| - j
      {
        CoordWithin(b.west, b.east, lngStep, j);
        var lng := Coord(b.west, lngStep, j);
        RowMajorStep(lats, lngs, i, j);
        CapPush(RowMajor(lats[..i], lngs) + Row(lats[i], lngs)[..j], Point(lng, lat), MINI_GRID_CAP);
        if |points| < MINI_GRID_CAP {
          points := points + [Point(lng, lat)];
        }
        j := j + 1;
      }
      CoordWithin(b.west, b.east, lngStep, j);
      RowMajorNextRow(lats, lngs, i);
      i := i + 1;
    }
    CoordWithin(b.south, b.north, latStep, i);
    assert lats[..i] == lats;
    RowMajorLength(lats, lngs);
  }
}
