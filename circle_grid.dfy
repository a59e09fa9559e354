/** The circle cover of the map application (`getCircleGrid` and
    `countCirclesToCover` in webapp-gis/src/App.jsx): a dense raster over
    the feature's bounding box is walked twice, first keeping only centres
    inside the polygon, then every centre, and a circle is added for each
    centre whose rounded key is new and whose circle touches the polygon. */
module CircleGrid {
  import opened Optional
  import opened Lattice
  import opened GisFeature

  /** `turfCircle([lng, lat], radiusKm)`, kept as its centre and radius. */
  datatype Circle = Circle(center: Point, radiusKm: real)

  /** The geometric tests and the key, which come from libraries:
      `inside` is `booleanPointInPolygon(p, feature)`, `hits` is
      `booleanIntersects(circle, feature)` and `key` is the string
      `lng.toFixed(6) + "," + lat.toFixed(6)`. */
  datatype Oracles = Oracles(inside: Point -> bool, hits: Circle -> bool, key: Point -> string)

  /** What `getCircleGrid` returns. */
  datatype Cover = Cover(centers: seq<Point>, circleFeatures: seq<Circle>)

  /** The closure state: `centers`, `circleFeatures` and the `added` key set. */
  datatype Grid = Grid(centers: seq<Point>, circles: seq<Circle>, added: set<string>)

  const EMPTY: Grid := Grid([], [], {})

  const KM_PER_DEG_LAT: real := 111.32

  /** The raster step is 2 * radius * 0.78, dense enough to leave no holes. */
  const STEP_FACTOR: real := 0.78

  // ---------------------------------------------------------------------
  // The raster

  function StepKm(r: real): real {
    2.0 * r * STEP_FACTOR
  }

  function StepDegLat(r: real): (s: real)
    requires r > 0.0
    ensures s > 0.0 && s * KM_PER_DEG_LAT == StepKm(r)
  {
    StepKm(r) / KM_PER_DEG_LAT
  }

  /** Longitude step, converted at the box's mid-latitude. */
  function StepDegLng(b: BBox, r: real, cosDeg: real -> real): (s: real)
    requires r > 0.0 && CosPositive(cosDeg)
    ensures s > 0.0 && s * (KM_PER_DEG_LAT * cosDeg((b.minLat + b.maxLat) / 2.0)) == StepKm(r)
  {
    var kmPerDegLng := KM_PER_DEG_LAT * cosDeg((b.minLat + b.maxLat) / 2.0);
    assert kmPerDegLng > 0.0;
    StepKm(r) / kmPerDegLng
  }

  /** The cursor values of `for (v = lo; v <= hi + step * 0.5; v += step)`. */
  function HalfStepAxis(lo: real, hi: real, step: real): (r: seq<real>)
    requires step > 0.0
    ensures forall k :: 0 <= k < |r| ==> r[k] == Coord(lo, step, k) && r[k] <= hi + step * 0.5
    ensures forall k: nat :: Coord(lo, step, k) <= hi + step * 0.5 <==> k < |r|
  {
    var n := Count(lo, hi + step * 0.5, step);
    var r := Axis(lo, step, n);
    assert forall k: nat :: Coord(lo, step, k) <= hi + step * 0.5 <==> k < n by {
      forall k: nat {
        CoordWithin(lo, hi + step * 0.5, step, k);
      }
    }
    r
  }

  /** The raster both passes walk, in visiting order. */
  function Raster(b: BBox, latStep: real, lngStep: real): seq<Point>
    requires latStep > 0.0 && lngStep > 0.0
  {
    RowMajor(HalfStepAxis(b.minLat, b.maxLat, latStep), HalfStepAxis(b.minLng, b.maxLng, lngStep))
  }

  function GridLattice(b: BBox, r: real, cosDeg: real -> real): seq<Point>
    requires r > 0.0 && CosPositive(cosDeg)
  {
    Raster(b, StepDegLat(r), StepDegLng(b, r, cosDeg))
  }

  // ---------------------------------------------------------------------
  // One visit and one pass

  /** The centre is tried in this pass: every centre in the second pass,
      only those inside the polygon in the first. */
  predicate Tried(p: Point, interior: bool, o: Oracles) {
    !interior || o.inside(p)
  }

  /** `addCircle(lng, lat)`: nothing when the key was already added or the
      circle misses the polygon; otherwise the key, the centre and the
      circle are recorded. */
  function AddCircle(g: Grid, p: Point, r: real, o: Oracles): Grid {
    var k := o.key(p);
    if k in g.added then g
    else if !o.hits(Circle(p, r)) then g
    else Grid(g.centers + [p], g.circles + [Circle(p, r)], g.added + {k})
  }

  function Visit(g: Grid, p: Point, r: real, interior: bool, o: Oracles): Grid {
    if Tried(p, interior, o) then AddCircle(g, p, r, o) else g
  }

  /** One pass over the points `ps`, in order. */
  function Pass(g: Grid, ps: seq<Point>, r: real, interior: bool, o: Oracles): Grid
    decreases |ps|
  {
    if ps == [] then g
    else Visit(Pass(g, ps[..|ps| - 1], r, interior, o), ps[|ps| - 1], r, interior, o)
  }

  lemma PassSnoc(g: Grid, ps: seq<Point>, p: Point, r: real, interior: bool, o: Oracles)
    ensures Pass(g, ps + [p], r, interior, o) == Visit(Pass(g, ps, r, interior, o), p, r, interior, o)
  {
    assert (ps + [p])[..|ps|] == ps;
  }

  /** A pass over two runs of points is the pass over the second run
      started from the state the first one leaves. */
  lemma {:induction false} PassConcat(g: Grid, ps: seq<Point>, qs: seq<Point>, r: real, interior: bool, o: Oracles)
    ensures Pass(g, ps + qs, r, interior, o) == Pass(Pass(g, ps, r, interior, o), qs, r, interior, o)
    decreases |qs|
  {
    if qs == [] {
      assert ps + qs == ps;
    } else {
      var front := qs[..|qs| - 1];
      assert (ps + qs)[..|ps + qs| - 1] == ps + front;
      assert (ps + qs)[|ps + qs| - 1] == qs[|qs| - 1];
      PassConcat(g, ps, front, r, interior, o);
    }
  }

  /** Scanning the next row after the first `i` rows is the pass over the
      first `i + 1` rows. */
  lemma PassNextRow(g: Grid, lats: seq<real>, lngs: seq<real>, i: nat, r: real, interior: bool, o: Oracles)
    requires i < |lats|
    ensures Pass(Pass(g, RowMajor(lats[..i], lngs), r, interior, o), Row(lats[i], lngs), r, interior, o)
         == Pass(g, RowMajor(lats[..i + 1], lngs), r, interior, o)
  {
    var row := Row(lats[i], lngs);
    PassConcat(g, RowMajor(lats[..i], lngs), row, r, interior, o);
    RowMajorNextRow(lats, lngs, i);
    assert row[..|lngs|] == row;
  }

  /** The specification of `getCircleGrid(feature, radiusKm)`: null for a
      radius that is not positive and for a feature without bounds;
      otherwise the state after the interior pass and the full pass. */
  function CircleGridOf(f: Feature, radiusKm: real, cosDeg: real -> real, o: Oracles): Option<Cover>
    requires HasOuterRings(f) && CosPositive(cosDeg)
  {
    if radiusKm <= 0.0 then None
    else match Bounds(f)
      case None => None
      case Some(b) =>
        var g := TwoPasses(GridLattice(b, radiusKm, cosDeg), radiusKm, o);
        Some(Cover(g.centers, g.circles))
  }

  // ---------------------------------------------------------------------
  // The imperative form

  /** The inner `for` loop of one pass: the raster points of one latitude,
      west to east, each handed to `addCircle` (only points inside the
      polygon when `interior`). */
  method ScanRow(lat: real, minLng: real, maxLng: real, lngStep: real, r: real, interior: bool,
                 o: Oracles, g0: Grid) returns (g: Grid)
    requires lngStep > 0.0
    ensures g == Pass(g0, Row(lat, HalfStepAxis(minLng, maxLng, lngStep)), r, interior, o)
  {
    ghost var lngs := HalfStepAxis(minLng, maxLng, lngStep);
    ghost var row := Row(lat, lngs);
    var centers, circles, added := g0.centers, g0.circles, g0.added;
    var j: nat := 0;
    while Coord(minLng, lngStep, j) <= maxLng + lngStep * 0.5
      invariant j <= |lngs|
      invariant Grid(centers, circles, added) == Pass(g0, row[..j], r, interior, o)
      decreases |lngs| - j
    {
      CoordWithin(minLng, maxLng + lngStep * 0.5, lngStep, j);
      var p := Point(Coord(minLng, lngStep, j), lat);
      assert row[..j + 1] == row[..j] + [p];
      PassSnoc(g0, row[..j], p, r, interior, o);
      if !interior || o.inside(p) {
        var k := o.key(p);
        if k !in added {
          var circle := Circle(p, r);
          if o.hits(circle) {
            added := added + {k};
            centers := centers + [p];
            circles := circles + [circle];
          }
        }
      }
      j := j + 1;
    }
    CoordWithin(minLng, maxLng + lngStep * 0.5, lngStep, j);
    assert row[..j] == row;
    g := Grid(centers, circles, added);
  }

  /** The outer `for` loop of one pass: the rows south to north. */
  method ScanPass(b: BBox, latStep: real, lngStep: real, r: real, interior: bool, o: Oracles,
                  g0: Grid) returns (g: Grid)
    requires latStep > 0.0 && lngStep > 0.0
    ensures g == Pass(g0, Raster(b, latStep, lngStep), r, interior, o)
  {
    ghost var lats := HalfStepAxis(b.minLat, b.maxLat, latStep);
    ghost var lngs := HalfStepAxis(b.minLng, b.maxLng, lngStep);
    g := g0;
    var i: nat := 0;
    while Coord(b.minLat, latStep, i) <= b.maxLat + latStep * 0.5
      invariant i <= |lats|
      invariant g == Pass(g0, RowMajor(lats[..i], lngs), r, interior, o)
      decreases |lats| - i
    {
      CoordWithin(b.minLat, b.maxLat + latStep * 0.5, latStep, i);
      var lat := Coord(b.minLat, latStep, i);
      assert i < |lats| && lat == lats[i];
      g := ScanRow(lat, b.minLng, b.maxLng, lngStep, r, interior, o, g);
      PassNextRow(g0, lats, lngs, i, r, interior, o);
      i := i + 1;
    }
    CoordWithin(b.minLat, b.maxLat + latStep * 0.5, latStep, i);
    assert lats[..i] == lats;
  }

  /** `getCircleGrid(feature, radiusKm)`. */
  method GetCircleGrid(f: Feature, radiusKm: real, cosDeg: real -> real, o: Oracles) returns (c: Option<Cover>)
    requires HasOuterRings(f) && CosPositive(cosDeg)
    ensures c == CircleGridOf(f, radiusKm, cosDeg, o)
  {
    if radiusKm <= 0.0 {
      return None;
    }
    var bounds := GetBounds(f);
    if bounds.None? {
      return None;
    }
    var b := bounds.value;
    var stepKm := 2.0 * radiusKm * STEP_FACTOR;
    var centerLat := (b.minLat + b.maxLat) / 2.0;
    var kmPerDegLng := KM_PER_DEG_LAT * cosDeg(centerLat);
    var stepDegLat := stepKm / KM_PER_DEG_LAT;
    var stepDegLng := stepKm / kmPerDegLng;
    assert stepDegLat == StepDegLat(radiusKm) && stepDegLng == StepDegLng(b, radiusKm, cosDeg);
    var g := ScanPass(b, stepDegLat, stepDegLng, radiusKm, true, o, EMPTY);
    g := ScanPass(b, stepDegLat, stepDegLng, radiusKm, false, o, g);
    return Some(Cover(g.centers, g.circles));
  }

  /** `countCirclesToCover`: the number of centres, or null without a grid. */
  method CountCirclesToCover(f: Feature, radiusKm: real, cosDeg: real -> real, o: Oracles) returns (n: Option<nat>)
    requires HasOuterRings(f) && CosPositive(cosDeg)
    ensures n.Some? <==> radiusKm > 0.0 && Bounds(f).Some?
    ensures n.Some? ==> n.value == |Covered(Bounds(f).value, radiusKm, cosDeg, o)|
  {
    var grid := GetCircleGrid(f, radiusKm, cosDeg, o);
    if grid.None? {
      return None;
    }
    CircleGridProperties(f, radiusKm, cosDeg, o);
    return Some(|grid.value.centers|);
  }

  // ---------------------------------------------------------------------
  // What the passes keep

  /** The keys of a list of centres. */
  ghost function KeysOf(cs: seq<Point>, o: Oracles): set<string> {
    set p | p in cs :: o.key(p)
  }

  /** A list has at most as many distinct keys as elements. */
  lemma {:induction false} KeysAtMost(ps: seq<Point>, o: Oracles)
    ensures |KeysOf(ps, o)| <= |ps|
    decreases |ps|
  {
    if |ps| > 0 {
      var front := ps[..|ps| - 1];
      assert KeysOf(ps, o) == KeysOf(front, o) + {o.key(ps[|ps| - 1])} by {
        assert ps == front + [ps[|ps| - 1]];
      }
      KeysAtMost(front, o);
    }
  }

  /** Pigeonhole: centres with pairwise distinct keys (a coherent state),
      all drawn from `ps`, are no more than the elements of `ps`. */
  lemma CentersAtMost(g: Grid, ps: seq<Point>, r: real, o: Oracles)
    requires Inv(g, r, o)
    requires forall k :: 0 <= k < |g.centers| ==> g.centers[k] in ps
    ensures |g.centers| <= |ps|
  {
    assert KeysOf(g.centers, o) <= KeysOf(ps, o);
    SubsetCard(KeysOf(g.centers, o), KeysOf(ps, o));
    KeysAtMost(ps, o);
  }

  lemma SubsetCard(a: set<string>, b: set<string>)
    requires a <= b
    ensures |a| <= |b|
  {
    assert b == a + (b - a);
  }

  /** The keys of the points of `ps` that a pass would record, ignoring
      duplicates: tried in this pass and with a circle that touches the polygon. */
  ghost function Hit(ps: seq<Point>, r: real, interior: bool, o: Oracles): set<string> {
    set p | p in ps && Tried(p, interior, o) && o.hits(Circle(p, r)) :: o.key(p)
  }

  /** The keys of all raster points whose circle touches the polygon. */
  ghost function Covered(b: BBox, r: real, cosDeg: real -> real, o: Oracles): set<string>
    requires r > 0.0 && CosPositive(cosDeg)
  {
    Hit(GridLattice(b, r, cosDeg), r, false, o)
  }

  /** The closure state is coherent: one circle per centre, of the given
      radius and touching the polygon; centre keys pairwise distinct; and
      `added` is exactly the set of centre keys. */
  ghost predicate Inv(g: Grid, r: real, o: Oracles) {
    && Parallel(g, r, o)
    && Distinct(g.centers, o)
    && g.added == KeysOf(g.centers, o)
    && |g.added| == |g.centers|
  }

  ghost predicate Parallel(g: Grid, r: real, o: Oracles) {
    && |g.circles| == |g.centers|
    && (forall k :: 0 <= k < |g.centers| ==> g.circles[k] == Circle(g.centers[k], r))
    && (forall k :: 0 <= k < |g.centers| ==> o.hits(g.circles[k]))
  }

  ghost predicate Distinct(cs: seq<Point>, o: Oracles) {
    forall i, j :: 0 <= i < j < |cs| ==> o.key(cs[i]) != o.key(cs[j])
  }

  /** A visit records the key of the point exactly when the point is tried
      and its circle touches the polygon (a key already there stays). */
  lemma VisitAdded(g: Grid, p: Point, r: real, interior: bool, o: Oracles)
    ensures Visit(g, p, r, interior, o).added
         == g.added + (if Tried(p, interior, o) && o.hits(Circle(p, r)) then {o.key(p)} else {})
  {
  }

  lemma VisitKeepsInv(g: Grid, p: Point, r: real, interior: bool, o: Oracles)
    requires Inv(g, r, o)
    ensures Inv(Visit(g, p, r, interior, o), r, o)
  {
    var h := Visit(g, p, r, interior, o);
    if h != g {
      var k := o.key(p);
      assert k !in g.added;
      assert h == Grid(g.centers + [p], g.circles + [Circle(p, r)], g.added + {k});
      forall i | 0 <= i < |g.centers|
        ensures o.key(g.centers[i]) != k
      {
        assert o.key(g.centers[i]) in KeysOf(g.centers, o);
      }
      assert Distinct(h.centers, o);
      assert Parallel(h, r, o);
      assert KeysOf(h.centers, o) == KeysOf(g.centers, o) + {k} by {
        assert forall q :: q in h.centers <==> q in g.centers || q == p;
      }
    }
  }

  lemma HitStep(ps: seq<Point>, r: real, interior: bool, o: Oracles)
    requires ps != []
    ensures var p := ps[|ps| - 1];
            Hit(ps, r, interior, o) == Hit(ps[..|ps| - 1], r, interior, o)
              + (if Tried(p, interior, o) && o.hits(Circle(p, r)) then {o.key(p)} else {})
  {
    var init := ps[..|ps| - 1];
    assert ps == init + [ps[|ps| - 1]];
    assert forall q :: q in ps <==> q in init || q == ps[|ps| - 1];
  }

  /** A pass keeps the state coherent. */
  lemma {:induction false} PassKeepsInv(g: Grid, ps: seq<Point>, r: real, interior: bool, o: Oracles)
    requires Inv(g, r, o)
    ensures Inv(Pass(g, ps, r, interior, o), r, o)
    decreases |ps|
  {
    if ps != [] {
      PassKeepsInv(g, ps[..|ps| - 1], r, interior, o);
      VisitKeepsInv(Pass(g, ps[..|ps| - 1], r, interior, o), ps[|ps| - 1], r, interior, o);
    }
  }

  /** A pass adds exactly the keys of the points it records. */
  lemma {:induction false} PassAdded(g: Grid, ps: seq<Point>, r: real, interior: bool, o: Oracles)
    ensures Pass(g, ps, r, interior, o).added == g.added + Hit(ps, r, interior, o)
    decreases |ps|
  {
    if ps == [] {
      assert Hit(ps, r, interior, o) == {};
    } else {
      PassAdded(g, ps[..|ps| - 1], r, interior, o);
      VisitAdded(Pass(g, ps[..|ps| - 1], r, interior, o), ps[|ps| - 1], r, interior, o);
      HitStep(ps, r, interior, o);
    }
  }

  /** A pass only appends centres, at most one per point, and every appended
      centre is a point of the pass that was tried in it. */
  lemma {:induction false} PassAppends(g: Grid, ps: seq<Point>, r: real, interior: bool, o: Oracles)
    ensures var h := Pass(g, ps, r, interior, o);
            && g.centers <= h.centers
            && |h.centers| <= |g.centers| + |ps|
            && (forall k :: |g.centers| <= k < |h.centers| ==> h.centers[k] in ps && Tried(h.centers[k], interior, o))
    decreases |ps|
  {
    if ps != [] {
      var init := ps[..|ps| - 1];
      var p := ps[|ps| - 1];
      PassAppends(g, init, r, interior, o);
      var m := Pass(g, init, r, interior, o);
      var h := Pass(g, ps, r, interior, o);
      assert h == Visit(m, p, r, interior, o);
      assert h == m || (h.centers == m.centers + [p] && Tried(p, interior, o));
      forall k | |g.centers| <= k < |h.centers|
        ensures h.centers[k] in ps && Tried(h.centers[k], interior, o)
      {
        if k < |m.centers| {
          assert h.centers[k] == m.centers[k];
          assert m.centers[k] in init;
        } else {
          assert h.centers[k] == p;
        }
      }
    }
  }

  lemma HitInteriorWithin(ps: seq<Point>, r: real, o: Oracles)
    ensures Hit(ps, r, true, o) <= Hit(ps, r, false, o)
  {
  }

  /** The state after the interior pass and the full pass over `ps`. */
  function TwoPasses(ps: seq<Point>, r: real, o: Oracles): Grid {
    Pass(Pass(EMPTY, ps, r, true, o), ps, r, false, o)
  }

  /** The two passes together, over any point list: a coherent state whose
      keys are those of the points whose circle touches the polygon, whose
      centres are points of the list, and which starts with the centres of
      the interior pass, all inside the polygon. */
  lemma TwoPassFacts(ps: seq<Point>, r: real, o: Oracles)
    ensures var g := TwoPasses(ps, r, o);
            var first := Pass(EMPTY, ps, r, true, o).centers;
            && Inv(g, r, o)
            && g.added == Hit(ps, r, false, o)
            && (forall k :: 0 <= k < |g.centers| ==> g.centers[k] in ps)
            && |g.centers| <= |ps|
            && first <= g.centers
            && (forall k :: 0 <= k < |first| ==> o.inside(first[k]))
  {
    TwoPassInv(ps, r, o);
    TwoPassCentres(ps, r, o);
    CentersAtMost(TwoPasses(ps, r, o), ps, r, o);
  }

  /** Both passes keep the state coherent and record the touching keys. */
  lemma TwoPassInv(ps: seq<Point>, r: real, o: Oracles)
    ensures Inv(TwoPasses(ps, r, o), r, o)
    ensures TwoPasses(ps, r, o).added == Hit(ps, r, false, o)
  {
    assert Inv(EMPTY, r, o);
    var g1 := Pass(EMPTY, ps, r, true, o);
    PassKeepsInv(EMPTY, ps, r, true, o);
    PassKeepsInv(g1, ps, r, false, o);
    PassAdded(EMPTY, ps, r, true, o);
    PassAdded(g1, ps, r, false, o);
    HitInteriorWithin(ps, r, o);
  }

  /** The centres after both passes are points of the list, and those of
      the interior pass come first and lie inside. */
  lemma TwoPassCentres(ps: seq<Point>, r: real, o: Oracles)
    ensures var g := TwoPasses(ps, r, o);
            var first := Pass(EMPTY, ps, r, true, o).centers;
            && (forall k :: 0 <= k < |g.centers| ==> g.centers[k] in ps)
            && first <= g.centers
            && (forall k :: 0 <= k < |first| ==> o.inside(first[k]))
  {
    var g1 := Pass(EMPTY, ps, r, true, o);
    var g := Pass(g1, ps, r, false, o);
    PassAppends(EMPTY, ps, r, true, o);
    PassAppends(g1, ps, r, false, o);
    forall k | 0 <= k < |g.centers|
      ensures g.centers[k] in ps
    {
      if k < |g1.centers| {
        assert g.centers[k] == g1.centers[k];
      }
    }
  }

  /** What `getCircleGrid` promises, for every feature with outer rings:
      - null exactly for a non-positive radius or a feature without bounds;
      - `circleFeatures[k]` is the circle of radius `radiusKm` around `centers[k]`,
        and every one of them touches the polygon;
      - no two centres share a key, and the keys of the centres are exactly
        the keys of the raster points whose circle touches the polygon, so
        the number of centres is the number of such keys;
      - every centre is a raster point, and the centres of the interior
        pass come first and lie inside the polygon. */
  lemma CircleGridProperties(f: Feature, radiusKm: real, cosDeg: real -> real, o: Oracles)
    requires HasOuterRings(f) && CosPositive(cosDeg)
    ensures CircleGridOf(f, radiusKm, cosDeg, o).Some? <==> radiusKm > 0.0 && Bounds(f).Some?
    ensures CircleGridOf(f, radiusKm, cosDeg, o).Some? ==>
      var c := CircleGridOf(f, radiusKm, cosDeg, o).value;
      var b := Bounds(f).value;
      var lattice := GridLattice(b, radiusKm, cosDeg);
      var first := Pass(EMPTY, lattice, radiusKm, true, o).centers;
      && |c.circleFeatures| == |c.centers|
      && (forall k :: 0 <= k < |c.centers| ==> c.circleFeatures[k] == Circle(c.centers[k], radiusKm))
      && (forall k :: 0 <= k < |c.centers| ==> o.hits(c.circleFeatures[k]))
      && (forall i, j :: 0 <= i < j < |c.centers| ==> o.key(c.centers[i]) != o.key(c.centers[j]))
      && KeysOf(c.centers, o) == Covered(b, radiusKm, cosDeg, o)
      && |c.centers| == |Covered(b, radiusKm, cosDeg, o)|
      && (forall k :: 0 <= k < |c.centers| ==> c.centers[k] in lattice)
      && |c.centers| <= |lattice|
      && first <= c.centers
      && (forall k :: 0 <= k < |first| ==> o.inside(first[k]))
  {
    if radiusKm > 0.0 && Bounds(f).Some? {
      var b := Bounds(f).value;
      var lattice := GridLattice(b, radiusKm, cosDeg);
      TwoPassFacts(lattice, radiusKm, o);
      var g := TwoPasses(lattice, radiusKm, o);
      assert CircleGridOf(f, radiusKm, cosDeg, o) == Some(Cover(g.centers, g.circles));
    }
  }

  /** The cover does not depend on the interior test beyond order: the set
      of centre keys is the same for any `inside` predicate. */
  lemma KeysIndependentOfInside(f: Feature, radiusKm: real, cosDeg: real -> real,
                                inside1: Point -> bool, inside2: Point -> bool,
                                hits: Circle -> bool, key: Point -> string)
    requires HasOuterRings(f) && CosPositive(cosDeg)
    requires CircleGridOf(f, radiusKm, cosDeg, Oracles(inside1, hits, key)).Some?
    ensures var o1, o2 := Oracles(inside1, hits, key), Oracles(inside2, hits, key);
            KeysOf(CircleGridOf(f, radiusKm, cosDeg, o1).value.centers, o1)
              == KeysOf(CircleGridOf(f, radiusKm, cosDeg, o2).value.centers, o2)
  {
    var o1, o2 := Oracles(inside1, hits, key), Oracles(inside2, hits, key);
    CircleGridProperties(f, radiusKm, cosDeg, o1);
    CircleGridProperties(f, radiusKm, cosDeg, o2);
    var b := Bounds(f).value;
    assert Covered(b, radiusKm, cosDeg, o1) == Covered(b, radiusKm, cosDeg, o2);
  }
}
