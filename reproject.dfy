/** The coordinate rewrite of the shapefile converter
    (webapp-gis/scripts/convert-shp-to-geojson.cjs): every position of a
    geometry that is not already a longitude/latitude pair is sent through
    the UTM zone 32N to WGS84 projection, keeping the nesting of the
    coordinate arrays. The projection is a parameter. */
module Reproject {
  import opened Optional
  import opened Json

  /** A coordinate array: a position (whose components may be null or
      missing) or an array of coordinate arrays. */
  datatype Coords = Position(components: seq<Option<real>>) | Nested(items: seq<Coords>)

  /** `toWgs84([x, y])`: the projected pair, or None when it throws. */
  type Projection = (real, real) -> Option<(real, real)>

  function Abs(x: real): real { if x < 0.0 then -x else x }

  /** Already a longitude/latitude pair: |x| <= 180 and |y| <= 90. */
  predicate InRange(x: real, y: real) {
    Abs(x) <= 180.0 && Abs(y) <= 90.0
  }

  /** Both leading components are present and non-null. */
  predicate HasXY(c: seq<Option<real>>) {
    |c| >= 2 && c[0].Some? && c[1].Some?
  }

  /** `transformCoord(c)`: an array whose first element is an array is
      mapped element by element; a position without both `x` and `y`, or
      already in range, is returned as it is; otherwise `x` and `y` are
      replaced by the projection and the further components kept; a
      projection that throws leaves the position as it is. An empty array
      is returned as it is (its first element is not an array and its `x`
      is undefined). */
  function TransformCoord(c: Coords, proj: Projection): (r: Coords)
    ensures c.Position? ==> r.Position? && |r.components| == |c.components|
    ensures c.Position? && !HasXY(c.components) ==> r == c
    ensures c.Position? && HasXY(c.components) && InRange(c.components[0].value, c.components[1].value) ==> r == c
    ensures c.Position? && HasXY(c.components) && !InRange(c.components[0].value, c.components[1].value) ==>
              var out := proj(c.components[0].value, c.components[1].value);
              if out.None? then r == c
              else r.components == [Some(out.value.0), Some(out.value.1)] + c.components[2..]
    ensures c.Nested? ==> r.Nested? && |r.items| == |c.items|
    ensures c.Nested? ==> forall i :: 0 <= i < |c.items| ==> r.items[i] == TransformCoord(c.items[i], proj)
    decreases c
  {
    match c
    case Nested(items) =>
      if |items| == 0 then c
      else Nested(seq(|items|, i requires 0 <= i < |items| => TransformCoord(items[i], proj)))
    case Position(comps) =>
      if !HasXY(comps) then c
      else
        var x, y := comps[0].value, comps[1].value;
        if InRange(x, y) then c
        else match proj(x, y)
          case None => c
          case Some(out) => Position([Some(out.0), Some(out.1)] + comps[2..])
  }

  /** Two coordinate trees with the same nesting and the same position lengths. */
  predicate SameShape(a: Coords, b: Coords)
    decreases a
  {
    match a
    case Position(ca) => b.Position? && |b.components| == |ca|
    case Nested(ia) =>
      b.Nested? && |b.items| == |ia| && forall i :: 0 <= i < |ia| ==> SameShape(ia[i], b.items[i])
  }

  /** `transformCoord` preserves the nesting, the length and order of every
      array, and the number of components of every position. */
  lemma {:induction false} TransformPreservesShape(c: Coords, proj: Projection)
    ensures SameShape(c, TransformCoord(c, proj))
    decreases c
  {
    match c
    case Position(_) =>
    case Nested(items) =>
      var r := TransformCoord(c, proj);
      if |items| == 0 {
        SameShapeReflexive(c);
      } else {
        forall i | 0 <= i < |items|
          ensures SameShape(items[i], r.items[i])
        {
          TransformPreservesShape(items[i], proj);
        }
      }
  }

  lemma {:induction false} SameShapeReflexive(c: Coords)
    ensures SameShape(c, c)
    decreases c
  {
    match c
    case Position(_) =>
    case Nested(items) =>
      forall i | 0 <= i < |items|
        ensures SameShape(items[i], items[i])
      {
        SameShapeReflexive(items[i]);
      }
  }

  /** Every pair the projection outputs is a longitude/latitude pair. */
  ghost predicate OutputsInRange(proj: Projection) {
    forall x: real, y: real :: proj(x, y).Some? ==> InRange(proj(x, y).value.0, proj(x, y).value.1)
  }

  /** When the projection only outputs lon/lat pairs, a second
      `transformCoord` changes nothing. */
  lemma {:induction false} TransformIdempotent(c: Coords, proj: Projection)
    requires OutputsInRange(proj)
    ensures TransformCoord(TransformCoord(c, proj), proj) == TransformCoord(c, proj)
    decreases c
  {
    match c
    case Position(comps) =>
      var r := TransformCoord(c, proj);
      if r != c {
        var out := proj(comps[0].value, comps[1].value);
        assert out.Some?;
        assert r.components[0] == Some(out.value.0) && r.components[1] == Some(out.value.1);
        assert InRange(out.value.0, out.value.1);
      }
    case Nested(items) =>
      if |items| > 0 {
        var r := TransformCoord(c, proj);
        forall i | 0 <= i < |items|
          ensures TransformCoord(r.items[i], proj) == r.items[i]
        {
          TransformIdempotent(items[i], proj);
        }
        assert TransformCoord(r, proj).items == r.items;
      }
  }

  // ---------------------------------------------------------------------
  // Geometries, features, collections

  /** A geometry object: its `type`, `coordinates` (None when missing or
      null), `bbox` (None when missing) and every other member. */
  datatype Geometry = Geometry(gtype: string, coordinates: Option<Coords>, bbox: Option<seq<real>>,
                               extra: map<string, Json>)

  /** A feature: its `geometry` (None when missing or null) and every other member. */
  datatype Feature = Feature(geometry: Option<Geometry>, other: map<string, Json>)

  /** A feature collection: `features` (None when missing) and every other member. */
  datatype Collection = Collection(features: Option<seq<Feature>>, other: map<string, Json>)

  /** `reprojectGeometry(geom)`: a missing geometry, or one without
      coordinates, is returned as it is; otherwise a new object holding only
      the type, the transformed coordinates and the untouched `bbox`. */
  function ReprojectGeometry(g: Option<Geometry>, proj: Projection): (r: Option<Geometry>)
    ensures g.None? || g.value.coordinates.None? ==> r == g
    ensures g.Some? && g.value.coordinates.Some? ==>
              && r.Some? && r.value.gtype == g.value.gtype && r.value.bbox == g.value.bbox
              && r.value.extra == map[]
              && r.value.coordinates == Some(TransformCoord(g.value.coordinates.value, proj))
  {
    if g.None? || g.value.coordinates.None? then g
    else Some(Geometry(g.value.gtype, Some(TransformCoord(g.value.coordinates.value, proj)), g.value.bbox, map[]))
  }

  /** `reprojectFeature(f)`: every other member is kept; a missing geometry stays missing. */
  function ReprojectFeature(f: Feature, proj: Projection): (r: Feature)
    ensures r.other == f.other
    ensures f.geometry.None? ==> r == f
    ensures r.geometry == ReprojectGeometry(f.geometry, proj)
  {
    if f.geometry.None? then f else Feature(ReprojectGeometry(f.geometry, proj), f.other)
  }

  /** `reprojectCollection(geojson)`: every other member is kept, and the
      features keep their number and order, each reprojected. */
  function ReprojectCollection(c: Option<Collection>, proj: Projection): (r: Option<Collection>)
    ensures c.None? || c.value.features.None? ==> r == c
    ensures c.Some? && c.value.features.Some? ==>
              && r.Some? && r.value.other == c.value.other && r.value.features.Some?
              && |r.value.features.value| == |c.value.features.value|
              && forall i :: 0 <= i < |c.value.features.value| ==>
                   r.value.features.value[i] == ReprojectFeature(c.value.features.value[i], proj)
  {
    if c.None? || c.value.features.None? then c
    else
      var fs := c.value.features.value;
      Some(Collection(Some(seq(|fs|, i requires 0 <= i < |fs| => ReprojectFeature(fs[i], proj))), c.value.other))
  }

  /** Under a projection that outputs lon/lat pairs, converting a converted
      collection again changes nothing. */
  lemma CollectionIdempotent(c: Option<Collection>, proj: Projection)
    requires OutputsInRange(proj)
    ensures ReprojectCollection(ReprojectCollection(c, proj), proj) == ReprojectCollection(c, proj)
  {
    if c.Some? && c.value.features.Some? {
      var fs := c.value.features.value;
      var r := ReprojectCollection(c, proj).value.features.value;
      forall i | 0 <= i < |fs|
        ensures ReprojectFeature(r[i], proj) == r[i]
      {
        FeatureIdempotent(fs[i], proj);
      }
      assert ReprojectCollection(ReprojectCollection(c, proj), proj).value.features.value == r;
    }
  }

  lemma FeatureIdempotent(f: Feature, proj: Projection)
    requires OutputsInRange(proj)
    ensures ReprojectFeature(ReprojectFeature(f, proj), proj) == ReprojectFeature(f, proj)
  {
    if f.geometry.Some? && f.geometry.value.coordinates.Some? {
      TransformIdempotent(f.geometry.value.coordinates.value, proj);
    }
  }
}
