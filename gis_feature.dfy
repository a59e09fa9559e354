/** The feature helpers of the map application (webapp-gis/src/App.jsx):
    property lookup with fallbacks, the tight bounding box of the outer
    rings, and the `Shape_Area` branch of the area in square kilometres. */
module GisFeature {
  import opened Optional
  import opened JsText

  /** A property value: `null`, or a value with the text `String(v)` gives
      and the number `Number(v)` gives (None when that is NaN). */
  datatype JsValue = Null | Value(text: string, number: Option<real>)

  /** A feature's `properties` object; a missing key reads as `undefined`. */
  type Props = map<string, JsValue>

  /** A position `[lng, lat, ...]`; a component that is `null`, or missing
      because the array is short, is None. */
  type Position = seq<Option<real>>

  type Ring = seq<Position>

  /** A geometry as the application reads it; `coordinates` is None when the
      member is missing or null. */
  datatype Geometry =
    | Polygon(rings: Option<seq<Ring>>)
    | MultiPolygon(polygons: Option<seq<seq<Ring>>>)
    | OtherGeometry(kind: string)

  datatype Feature = Feature(properties: Option<Props>, geometry: Option<Geometry>)

  const PROV_NAME_KEYS: seq<string> := ["DEN_PCM", "DEN_PROV", "NOME", "nome"]
  const PROV_SIGLA_KEYS: seq<string> := ["SIGLA", "COD_PROV", "PROV"]
  const COMUNE_NAME_KEYS: seq<string> := ["COMUNE", "DEN_CM", "NOME", "nome"]
  const COMUNE_PROV_KEYS: seq<string> := ["SIGLA_PROV", "PROV", "COD_PROV"]

  /** The placeholder shown for a missing name. */
  const NO_NAME: string := "—"

  /** `feature.properties || {}`. */
  function PropsOf(f: Feature): Props {
    if f.properties.Some? then f.properties.value else map[]
  }

  /** The trimmed text of key `k` when it is present, not null and not blank. */
  function Filled(p: Props, k: string): (r: Option<string>)
    ensures r.Some? ==> r.value != ""
  {
    if k in p && p[k].Value? && Trim(p[k].text) != "" then Some(Trim(p[k].text)) else None
  }

  /** A key is unfilled exactly when it is missing, null, or only whitespace;
      a filled key yields its text without the surrounding whitespace. */
  lemma FilledCases(p: Props, k: string)
    ensures Filled(p, k).None? <==> (k !in p || p[k].Null? || AllSpace(p[k].text))
    ensures Filled(p, k).Some? ==> k in p && p[k].Value? && Filled(p, k).value == Trim(p[k].text)
  {
    if k in p && p[k].Value? {
      var t := Trim(p[k].text);
      assert t == [] <==> AllSpace(p[k].text);
    }
  }

  /** Index of the first key, from `from` on, whose value is filled. */
  function FirstFilled(p: Props, keys: seq<string>, from: nat): (r: Option<nat>)
    requires from <= |keys|
    ensures r.Some? ==> from <= r.value < |keys| && Filled(p, keys[r.value]).Some?
    ensures r.Some? ==> forall j :: from <= j < r.value ==> Filled(p, keys[j]).None?
    ensures r.None? ==> forall j :: from <= j < |keys| ==> Filled(p, keys[j]).None?
    decreases |keys| - from
  {
    if from == |keys| then None
    else if Filled(p, keys[from]).Some? then Some(from)
    else FirstFilled(p, keys, from + 1)
  }

  /** What `getProp(feature, keys)` returns: the trimmed value of the first
      key, in list order, whose value is present, not null and not blank;
      the empty string when there is none. */
  function Prop(f: Feature, keys: seq<string>): (r: string)
    ensures r == "" <==> forall i :: 0 <= i < |keys| ==> Filled(PropsOf(f), keys[i]).None?
    ensures r != "" ==> exists i :: 0 <= i < |keys| && Filled(PropsOf(f), keys[i]) == Some(r)
                          && forall j :: 0 <= j < i ==> Filled(PropsOf(f), keys[j]).None?
  {
    match FirstFilled(PropsOf(f), keys, 0)
    case Some(i) => Filled(PropsOf(f), keys[i]).value
    case None => ""
  }

  /** `getProp`: the loop over the keys with an early return. */
  method GetProp(f: Feature, keys: seq<string>) returns (r: string)
    ensures r == Prop(f, keys)
  {
    var p := PropsOf(f);
    var i := 0;
    while i < |keys|
      invariant i <= |keys|
      invariant FirstFilled(p, keys, 0) == FirstFilled(p, keys, i)
    {
      var k := keys[i];
      if k in p && p[k].Value? && Trim(p[k].text) != "" {
        return Trim(p[k].text);
      }
      i := i + 1;
    }
    return "";
  }

  /** `a || b`: JavaScript's `||` on strings, where only "" is falsy. */
  function OrElse(a: string, b: string): string {
    if a != "" then a else b
  }

  /** `getProvName`: the name keys, then the sigla keys, then the placeholder;
      never the empty string. */
  function ProvName(f: Feature): (r: string)
    ensures r != ""
    ensures Prop(f, PROV_NAME_KEYS) != "" ==> r == Prop(f, PROV_NAME_KEYS)
    ensures Prop(f, PROV_NAME_KEYS) == "" && Prop(f, PROV_SIGLA_KEYS) != "" ==> r == Prop(f, PROV_SIGLA_KEYS)
    ensures Prop(f, PROV_NAME_KEYS) == "" && Prop(f, PROV_SIGLA_KEYS) == "" ==> r == NO_NAME
  {
    OrElse(OrElse(Prop(f, PROV_NAME_KEYS), Prop(f, PROV_SIGLA_KEYS)), NO_NAME)
  }

  /** `getProvSigla`: the sigla keys, then the name keys, else "". */
  function ProvSigla(f: Feature): (r: string)
    ensures r == "" <==> Prop(f, PROV_SIGLA_KEYS) == "" && Prop(f, PROV_NAME_KEYS) == ""
    ensures Prop(f, PROV_SIGLA_KEYS) != "" ==> r == Prop(f, PROV_SIGLA_KEYS)
    ensures Prop(f, PROV_SIGLA_KEYS) == "" ==> r == Prop(f, PROV_NAME_KEYS)
  {
    OrElse(OrElse(Prop(f, PROV_SIGLA_KEYS), Prop(f, PROV_NAME_KEYS)), "")
  }

  /** `getComuneName`: the municipality name keys, else the placeholder;
      never the empty string. */
  function ComuneName(f: Feature): (r: string)
    ensures r != ""
    ensures Prop(f, COMUNE_NAME_KEYS) != "" ==> r == Prop(f, COMUNE_NAME_KEYS)
    ensures Prop(f, COMUNE_NAME_KEYS) == "" ==> r == NO_NAME
  {
    OrElse(Prop(f, COMUNE_NAME_KEYS), NO_NAME)
  }

  /** `getComuneProv`: the province keys of a municipality, else "". */
  function ComuneProv(f: Feature): (r: string)
    ensures r == Prop(f, COMUNE_PROV_KEYS)
    ensures r == "" <==> forall i :: 0 <= i < |COMUNE_PROV_KEYS| ==> Filled(PropsOf(f), COMUNE_PROV_KEYS[i]).None?
  {
    OrElse(Prop(f, COMUNE_PROV_KEYS), "")
  }

  // ---------------------------------------------------------------------
  // getBounds

  datatype BBox = BBox(minLng: real, minLat: real, maxLng: real, maxLat: real)

  /** `c[k]`, where a missing component reads as `undefined`. */
  function Comp(c: Position, k: nat): Option<real> {
    if k < |c| then c[k] else None
  }

  /** Both `c[0]` and `c[1]` are non-null. */
  predicate Usable(c: Position) {
    Comp(c, 0).Some? && Comp(c, 1).Some?
  }

  function Lng(c: Position): real requires Usable(c) { Comp(c, 0).value }
  function Lat(c: Position): real requires Usable(c) { Comp(c, 1).value }

  /** The source reads `coordinates[0]` of every polygon, which throws for a
      polygon without rings; the model asks that every polygon has one. */
  predicate HasOuterRings(f: Feature) {
    match f.geometry
    case Some(Polygon(Some(rings))) => |rings| > 0
    case Some(MultiPolygon(Some(polys))) => forall i :: 0 <= i < |polys| ==> |polys[i]| > 0
    case _ => true
  }

  /** `flatMap` over ring lists. */
  function Flatten(ss: seq<Ring>): (r: Ring)
    decreases |ss|
  {
    if ss == [] then [] else Flatten(ss[..|ss| - 1]) + ss[|ss| - 1]
  }

  /** The outer rings' positions, `coordinates[0]` for a Polygon and
      `coordinates.flatMap(p => p[0])` for a MultiPolygon; None for every
      other geometry and when geometry or coordinates are missing. */
  function OuterRings(f: Feature): Option<Ring>
    requires HasOuterRings(f)
  {
    match f.geometry
    case Some(Polygon(Some(rings))) => Some(rings[0])
    case Some(MultiPolygon(Some(polys))) => Some(Flatten(seq(|polys|, i requires 0 <= i < |polys| => polys[i][0])))
    case _ => None
  }

  predicate Ordered(b: BBox) {
    b.minLng <= b.maxLng && b.minLat <= b.maxLat
  }

  predicate Contains(b: BBox, c: Position)
    requires Usable(c)
  {
    b.minLng <= Lng(c) <= b.maxLng && b.minLat <= Lat(c) <= b.maxLat
  }

  /** Each of the four bounds is the coordinate of some usable position. */
  ghost predicate Attained(b: BBox, cs: Ring) {
    && (exists k :: 0 <= k < |cs| && Usable(cs[k]) && Lng(cs[k]) == b.minLng)
    && (exists k :: 0 <= k < |cs| && Usable(cs[k]) && Lat(cs[k]) == b.minLat)
    && (exists k :: 0 <= k < |cs| && Usable(cs[k]) && Lng(cs[k]) == b.maxLng)
    && (exists k :: 0 <= k < |cs| && Usable(cs[k]) && Lat(cs[k]) == b.maxLat)
  }

  function Min(a: real, b: real): real { if a <= b then a else b }
  function Max(a: real, b: real): real { if a >= b then a else b }

  /** One step of the running min/max over a position. */
  function Extend(acc: Option<BBox>, c: Position): Option<BBox> {
    if !Usable(c) then acc
    else match acc
      case None => Some(BBox(Lng(c), Lat(c), Lng(c), Lat(c)))
      case Some(b) => Some(BBox(Min(b.minLng, Lng(c)), Min(b.minLat, Lat(c)),
                                Max(b.maxLng, Lng(c)), Max(b.maxLat, Lat(c))))
  }

  /** The running min/max over a position list: None exactly when no
      position has both components; otherwise an ordered box that contains
      every usable position and whose every bound is attained. */
  function BoundsOf(cs: Ring): (r: Option<BBox>)
    ensures r.None? <==> forall k :: 0 <= k < |cs| ==> !Usable(cs[k])
    ensures r.Some? ==> Ordered(r.value)
    ensures r.Some? ==> forall k :: 0 <= k < |cs| && Usable(cs[k]) ==> Contains(r.value, cs[k])
    ensures r.Some? ==> Attained(r.value, cs)
    decreases |cs|
  {
    if cs == [] then None
    else
      var init := cs[..|cs| - 1];
      var acc := BoundsOf(init);
      var r := Extend(acc, cs[|cs| - 1]);
      ExtendAttained(init, cs, acc);
      r
  }

  /** One more position extends the running box by that position. */
  lemma BoundsOfSnoc(cs: Ring, k: nat)
    requires k < |cs|
    ensures BoundsOf(cs[..k + 1]) == Extend(BoundsOf(cs[..k]), cs[k])
  {
    assert cs[..k + 1][..k] == cs[..k];
  }

  lemma ExtendAttained(init: Ring, cs: Ring, acc: Option<BBox>)
    requires |cs| > 0 && init == cs[..|cs| - 1]
    requires acc.Some? ==> Attained(acc.value, init)
    ensures Extend(acc, cs[|cs| - 1]).Some? ==> Attained(Extend(acc, cs[|cs| - 1]).value, cs)
  {
    var c := cs[|cs| - 1];
    var n := |cs| - 1;
    if acc.Some? {
      var b := acc.value;
      var u := Extend(acc, c).value;
      var i1 :| 0 <= i1 < |init| && Usable(init[i1]) && Lng(init[i1]) == b.minLng;
      var i2 :| 0 <= i2 < |init| && Usable(init[i2]) && Lat(init[i2]) == b.minLat;
      var i3 :| 0 <= i3 < |init| && Usable(init[i3]) && Lng(init[i3]) == b.maxLng;
      var i4 :| 0 <= i4 < |init| && Usable(init[i4]) && Lat(init[i4]) == b.maxLat;
      assert cs[i1] == init[i1] && cs[i2] == init[i2] && cs[i3] == init[i3] && cs[i4] == init[i4];
      var k1 := if Usable(c) && Lng(c) < b.minLng then n else i1;
      var k2 := if Usable(c) && Lat(c) < b.minLat then n else i2;
      var k3 := if Usable(c) && Lng(c) > b.maxLng then n else i3;
      var k4 := if Usable(c) && Lat(c) > b.maxLat then n else i4;
      assert Usable(cs[k1]) && Lng(cs[k1]) == u.minLng;
      assert Usable(cs[k2]) && Lat(cs[k2]) == u.minLat;
      assert Usable(cs[k3]) && Lng(cs[k3]) == u.maxLng;
      assert Usable(cs[k4]) && Lat(cs[k4]) == u.maxLat;
    } else if Usable(c) {
      assert Usable(cs[n]);
    }
  }

  /** What `getBounds(feature)` returns: null for a missing geometry or
      coordinates, for every type other than Polygon and MultiPolygon, and
      when no outer-ring position has both components; otherwise
      `[minLng, minLat, maxLng, maxLat]` over the outer rings only. */
  function Bounds(f: Feature): (r: Option<BBox>)
    requires HasOuterRings(f)
    ensures OuterRings(f).None? ==> r.None?
    ensures OuterRings(f).Some? ==> r == BoundsOf(OuterRings(f).value)
  {
    match OuterRings(f)
    case None => None
    case Some(cs) => BoundsOf(cs)
  }

  /** `getBounds`: four running bounds updated in one loop. The source
      starts them at +/-Infinity and tests `minLng === Infinity` afterwards;
      here `seen` records whether any usable position was met. */
  method GetBounds(f: Feature) returns (r: Option<BBox>)
    requires HasOuterRings(f)
    ensures r == Bounds(f)
  {
    var coords := OuterRings(f);
    if coords.None? {
      return None;
    }
    var cs := coords.value;
    var seen := false;
    var minLng, minLat, maxLng, maxLat := 0.0, 0.0, 0.0, 0.0;
    var k := 0;
    while k < |cs|
      invariant k <= |cs|
      invariant BoundsOf(cs[..k]) == if seen then Some(BBox(minLng, minLat, maxLng, maxLat)) else None
    {
      var c := cs[k];
      BoundsOfSnoc(cs, k);
      var lng, lat := Comp(c, 0), Comp(c, 1);
      if lng.Some? && lat.Some? {
        if !seen {
          minLng, minLat, maxLng, maxLat := lng.value, lat.value, lng.value, lat.value;
          seen := true;
        } else {
          minLng := Min(minLng, lng.value);
          minLat := Min(minLat, lat.value);
          maxLng := Max(maxLng, lng.value);
          maxLat := Max(maxLat, lat.value);
        }
      }
      k := k + 1;
    }
    assert cs[..k] == cs;
    if !seen {
      return None;
    }
    return Some(BBox(minLng, minLat, maxLng, maxLat));
  }

  // ---------------------------------------------------------------------
  // getAreaKm2

  /** The `Shape_Area` branch of `getAreaKm2`: a positive numeric `Shape_Area`
      (square metres) is converted to square kilometres; otherwise the area
      comes from the geodesic area function `turfArea` (None when it throws). */
  function AreaKm2(f: Feature, turfArea: Feature -> Option<real>): (r: Option<real>)
    ensures var p := PropsOf(f);
            if "Shape_Area" in p && p["Shape_Area"].Value? && p["Shape_Area"].number.Some?
               && p["Shape_Area"].number.value > 0.0
            then r.Some? && r.value > 0.0 && r.value * 1000000.0 == p["Shape_Area"].number.value
            else r.Some? == turfArea(f).Some?
                 && (r.Some? ==> r.value * 1000000.0 == turfArea(f).value)
  {
    var p := PropsOf(f);
    if "Shape_Area" in p && p["Shape_Area"].Value? && p["Shape_Area"].number.Some?
       && p["Shape_Area"].number.value > 0.0
    then Some(p["Shape_Area"].number.value / 1000000.0)
    else match turfArea(f)
      case Some(a) => Some(a / 1000000.0)
      case None => None
  }
}
