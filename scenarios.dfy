/** The comparison matrix and the multi-area scenarios of the comparison page
    (the `matrix` and `combos` computations of confronto-comune-vs-provincia.jsx):
    per area and radius, lattice points, calls per scan, calls per period,
    price and a capped coverage percentage; per scenario, the two areas'
    points and calls summed and the sum priced once. */
module Scenarios {
  import opened Optional
  import opened Lattice
  import opened Pricing
  import opened ComparisonGrid

  /** An entry of the page's `AREAS` table. */
  datatype Area = Area(key: string, areaKm2: real, bounds: Box)

  const AREAS: seq<Area> := [
    Area("milano_comune", 181.7, Box(45.536, 45.390, 9.065, 9.278)),
    Area("milano_provincia", 1575.65, Box(45.650, 45.300, 8.850, 9.550)),
    Area("pisa_comune", 185.0, Box(43.775, 43.600, 10.280, 10.470)),
    Area("pisa_provincia", 2444.0, Box(43.850, 43.200, 10.050, 10.950))
  ]

  /** Search radii in metres. */
  const RADII: seq<real> := [500.0, 1000.0, 2000.0, 3000.0, 4000.0, 5000.0, 7500.0, 10000.0]

  /** `Math.PI` (the double nearest to pi). */
  const PI: real := 3.141592653589793

  /** The overlap factor of the comparison page. */
  const OVERLAP: real := 0.7

  /** Upper bound of the displayed coverage percentage. */
  const COVERAGE_CAP: real := 999.0

  /** One cell of the matrix: an area at one radius. */
  datatype RadiusRow = RadiusRow(radius: real, points: nat, callsPerScan: int, totalCalls: int,
                                 pricing: Price, coverage: real)

  /** One row of the matrix: an area with a cell per radius. */
  datatype AreaRow = AreaRow(key: string, area: Area, radii: seq<RadiusRow>)

  /** One line of a scenario: both areas at one radius, summed and priced once. */
  datatype ComboItem = ComboItem(radius: real, points: nat, totalCalls: int, pricing: Price)

  datatype Combo = Combo(title: string, items: seq<ComboItem>)

  /** Calls for one scan: every point is queried once per property type. */
  function CallsPerScan(points: nat, propertyTypes: int): int {
    points * propertyTypes
  }

  /** Calls per period: one scan a year in "annual" mode, twelve otherwise. */
  function TotalCalls(callsPerScan: int, queryMode: string): (r: int)
    ensures queryMode == "annual" ==> r == callsPerScan
    ensures queryMode != "annual" ==> r == 12 * callsPerScan
  {
    if queryMode == "annual" then callsPerScan else callsPerScan * 12
  }

  /** The approximate areal coverage ratio in percent, never above 999 and
      equal to the uncapped ratio whenever that ratio is at most 999. */
  function Coverage(points: nat, radius: real, areaKm2: real): (c: real)
    requires areaKm2 > 0.0
    ensures c <= COVERAGE_CAP
    ensures c >= 0.0
    ensures points as real * (PI * (radius / 1000.0) * (radius / 1000.0)) / areaKm2 * 100.0 <= COVERAGE_CAP
            ==> c == points as real * (PI * (radius / 1000.0) * (radius / 1000.0)) / areaKm2 * 100.0
    ensures points as real * (PI * (radius / 1000.0) * (radius / 1000.0)) / areaKm2 * 100.0 > COVERAGE_CAP
            ==> c == COVERAGE_CAP
  {
    var perPoint := PI * (radius / 1000.0) * (radius / 1000.0);
    var raw := points as real * perPoint / areaKm2 * 100.0;
    NonNegativeRatio(points as real, perPoint, areaKm2);
    if raw < COVERAGE_CAP then raw else COVERAGE_CAP
  }

  lemma NonNegativeRatio(x: real, y: real, a: real)
    requires x >= 0.0 && y >= 0.0 && a > 0.0
    ensures x * y / a * 100.0 >= 0.0
  {
    assert x * y >= 0.0;
  }

  /** A matrix cell: `calcGrid` points at this radius, then both multipliers,
      then the price of the resulting call count. */
  function RadiusEntry(area: Area, r: real, propertyTypes: int, queryMode: string,
                       cosDeg: real -> real): (e: RadiusRow)
    requires r > 0.0 && area.areaKm2 > 0.0 && CosPositive(cosDeg)
    ensures e.radius == r
    ensures StepMeters(r, OVERLAP) > 0.0 && e.points == GridCount(area.bounds, r, OVERLAP, cosDeg)
    ensures e.callsPerScan == e.points * propertyTypes
    ensures e.totalCalls == TotalCalls(e.callsPerScan, queryMode)
    ensures e.pricing == GetPrice(e.totalCalls)
    ensures e.coverage == Coverage(e.points, r, area.areaKm2) && e.coverage <= COVERAGE_CAP
  {
    StepPositive(r);
    var points := GridCount(area.bounds, r, OVERLAP, cosDeg);
    var callsPerScan := CallsPerScan(points, propertyTypes);
    var totalCalls := TotalCalls(callsPerScan, queryMode);
    RadiusRow(r, points, callsPerScan, totalCalls, GetPrice(totalCalls),
              Coverage(points, r, area.areaKm2))
  }

  lemma StepPositive(r: real)
    requires r > 0.0
    ensures StepMeters(r, OVERLAP) > 0.0
  {
  }

  /** The matrix: one row per area of `AREAS`, one cell per radius of `RADII`. */
  function Matrix(propertyTypes: int, queryMode: string, cosDeg: real -> real): (m: seq<AreaRow>)
    requires CosPositive(cosDeg)
    ensures |m| == |AREAS|
    ensures forall i :: 0 <= i < |m| ==> m[i].key == AREAS[i].key && |m[i].radii| == |RADII|
    ensures forall i, k :: 0 <= i < |AREAS| && 0 <= k < |RADII| ==>
              m[i].area == AREAS[i] && m[i].radii[k] == RadiusEntry(AREAS[i], RADII[k], propertyTypes, queryMode, cosDeg)
  {
    seq(|AREAS|, i requires 0 <= i < |AREAS| =>
      AreaRow(AREAS[i].key, AREAS[i],
              seq(|RADII|, k requires 0 <= k < |RADII| =>
                RadiusEntry(AREAS[i], RADII[k], propertyTypes, queryMode, cosDeg))))
  }

  /** `matrix.find(m => m.key === key)`. */
  function FindArea(m: seq<AreaRow>, key: string): (r: Option<AreaRow>)
    ensures r.Some? ==> r.value in m && r.value.key == key
  {
    if m == [] then None
    else if m[0].key == key then Some(m[0])
    else FindArea(m[1..], key)
  }

  /** `radii.find(x => x.radius === r)`: the first cell with that radius. */
  function FindRadius(rs: seq<RadiusRow>, r: real): (found: Option<RadiusRow>)
    ensures found.Some? ==> found.value in rs && found.value.radius == r
  {
    if rs == [] then None
    else if rs[0].radius == r then Some(rs[0])
    else FindRadius(rs[1..], r)
  }

  /** `find` by key succeeds exactly when some row has the key, and then
      returns the first such row. */
  lemma {:induction false} FindAreaFound(m: seq<AreaRow>, key: string)
    ensures FindArea(m, key).Some? <==> exists i :: 0 <= i < |m| && m[i].key == key
    ensures FindArea(m, key).Some? ==>
              exists i :: 0 <= i < |m| && FindArea(m, key) == Some(m[i])
                          && forall j :: 0 <= j < i ==> m[j].key != key
  {
    if m != [] && m[0].key != key {
      FindAreaFound(m[1..], key);
      if FindArea(m, key).Some? {
        var i :| 0 <= i < |m[1..]| && FindArea(m[1..], key) == Some(m[1..][i])
                 && forall j :: 0 <= j < i ==> m[1..][j].key != key;
        assert FindArea(m, key) == Some(m[i + 1]);
        assert forall j :: 0 <= j < i + 1 ==> m[j].key != key by {
          forall j | 0 <= j < i + 1 ensures m[j].key != key {
            if j > 0 { assert m[j] == m[1..][j - 1]; }
          }
        }
      } else {
        forall i | 0 <= i < |m| ensures m[i].key != key {
          if i > 0 { assert m[i] == m[1..][i - 1]; }
        }
      }
    }
  }

  /** `find` by radius succeeds exactly when some cell has that radius, and
      then returns the first such cell. */
  lemma {:induction false} FindRadiusFound(rs: seq<RadiusRow>, r: real)
    ensures FindRadius(rs, r).Some? <==> exists k :: 0 <= k < |rs| && rs[k].radius == r
    ensures FindRadius(rs, r).Some? ==>
              exists k :: 0 <= k < |rs| && FindRadius(rs, r) == Some(rs[k])
                          && forall j :: 0 <= j < k ==> rs[j].radius != r
  {
    if rs != [] && rs[0].radius != r {
      FindRadiusFound(rs[1..], r);
      if FindRadius(rs, r).Some? {
        var k :| 0 <= k < |rs[1..]| && FindRadius(rs[1..], r) == Some(rs[1..][k])
                 && forall j :: 0 <= j < k ==> rs[1..][j].radius != r;
        assert FindRadius(rs, r) == Some(rs[k + 1]);
        assert forall j :: 0 <= j < k + 1 ==> rs[j].radius != r by {
          forall j | 0 <= j < k + 1 ensures rs[j].radius != r {
            if j > 0 { assert rs[j] == rs[1..][j - 1]; }
          }
        }
      } else {
        forall k | 0 <= k < |rs| ensures rs[k].radius != r {
          if k > 0 { assert rs[k] == rs[1..][k - 1]; }
        }
      }
    }
  }

  /** A row has a cell for every radius the scenarios look up. */
  ghost predicate CoversRadii(row: AreaRow) {
    forall k :: 0 <= k < |RADII| ==> FindRadius(row.radii, RADII[k]).Some?
  }

  /** A cell's price is the price of its own call count, which is not negative. */
  ghost predicate Consistent(x: RadiusRow) {
    x.totalCalls >= 0 && x.pricing == GetPrice(x.totalCalls)
  }

  /** One scenario line: points and calls of both areas summed, and the sum
      priced once; when both cells are consistent, this never costs more than
      the two areas priced separately. */
  function Combine(r: real, x: RadiusRow, y: RadiusRow): (c: ComboItem)
    ensures c.radius == r
    ensures c.points == x.points + y.points && c.totalCalls == x.totalCalls + y.totalCalls
    ensures c.pricing == GetPrice(x.totalCalls + y.totalCalls)
    ensures Consistent(x) && Consistent(y) ==>
              c.pricing.total <= x.pricing.total + y.pricing.total
  {
    var total := x.totalCalls + y.totalCalls;
    ConsistentCellsCombine(x, y);
    ComboItem(r, x.points + y.points, total, GetPrice(total))
  }

  lemma ConsistentCellsCombine(x: RadiusRow, y: RadiusRow)
    ensures Consistent(x) && Consistent(y) ==>
              GetPrice(x.totalCalls + y.totalCalls).total <= x.pricing.total + y.pricing.total
  {
    if Consistent(x) && Consistent(y) {
      PricedCellsCombine(x.totalCalls, y.totalCalls, x.pricing, y.pricing);
    }
  }

  lemma PricedCellsCombine(a: int, b: int, pa: Price, pb: Price)
    requires a >= 0 && b >= 0 && pa == GetPrice(a) && pb == GetPrice(b)
    ensures GetPrice(a + b).total <= pa.total + pb.total
  {
    CombinedNeverDearer(a, b);
  }

  /** The lines of a scenario over two matrix rows, one per radius. */
  function Items(a: AreaRow, b: AreaRow): (items: seq<ComboItem>)
    requires CoversRadii(a) && CoversRadii(b)
    ensures |items| == |RADII|
  {
    seq(|RADII|, k requires 0 <= k < |RADII| =>
      Combine(RADII[k], FindRadius(a.radii, RADII[k]).value, FindRadius(b.radii, RADII[k]).value))
  }

  /** `combos`: the three fixed scenarios, each present when both of its areas are. */
  function Combos(m: seq<AreaRow>): (cs: seq<Combo>)
    requires forall row :: row in m ==> CoversRadii(row)
    ensures |cs| <= 3
  {
    var miC := FindArea(m, "milano_comune");
    var piC := FindArea(m, "pisa_comune");
    var miP := FindArea(m, "milano_provincia");
    var piP := FindArea(m, "pisa_provincia");
    Scenario("Solo Comuni (MI + PI)", miC, piC)
    + Scenario("Province complete (MI + PI)", miP, piP)
    + Scenario("MI Provincia + PI Comune", miP, piC)
  }

  /** One scenario: present exactly when both of its areas are. */
  function Scenario(title: string, a: Option<AreaRow>, b: Option<AreaRow>): (cs: seq<Combo>)
    requires a.Some? ==> CoversRadii(a.value)
    requires b.Some? ==> CoversRadii(b.value)
    ensures |cs| <= 1
  {
    if a.Some? && b.Some? then [Combo(title, Items(a.value, b.value))] else []
  }

  // ---------------------------------------------------------------------
  // Facts

  /** Monthly mode issues exactly twelve times the calls of annual mode. */
  lemma MonthlyIsTwelveAnnual(area: Area, r: real, propertyTypes: int, cosDeg: real -> real)
    requires r > 0.0 && area.areaKm2 > 0.0 && CosPositive(cosDeg)
    ensures RadiusEntry(area, r, propertyTypes, "monthly", cosDeg).totalCalls
         == 12 * RadiusEntry(area, r, propertyTypes, "annual", cosDeg).totalCalls
    ensures RadiusEntry(area, r, propertyTypes, "monthly", cosDeg).pricing
         == GetPrice(12 * RadiusEntry(area, r, propertyTypes, "annual", cosDeg).totalCalls)
  {
  }

  /** The radii are pairwise distinct. */
  ghost predicate DistinctRadii(radii: seq<real>) {
    forall i, j :: 0 <= i < j < |radii| ==> radii[i] != radii[j]
  }

  lemma RadiiDistinct()
    ensures DistinctRadii(RADII)
  {
  }

  /** Over distinct radii, the cell found for the k-th radius is the k-th cell. */
  lemma {:induction false} FindRadiusAtIn(rs: seq<RadiusRow>, radii: seq<real>, k: nat)
    requires |rs| == |radii| && k < |radii| && DistinctRadii(radii)
    requires forall j :: 0 <= j < |rs| ==> rs[j].radius == radii[j]
    ensures FindRadius(rs, radii[k]) == Some(rs[k])
  {
    if k > 0 {
      assert rs[0].radius == radii[0] != radii[k];
      FindRadiusAtIn(rs[1..], radii[1..], k - 1);
    }
  }

  /** In the matrix, the k-th cell of every row is the one for RADII[k]. */
  lemma FindRadiusAt(rs: seq<RadiusRow>, k: nat)
    requires |rs| == |RADII| && k < |RADII|
    requires forall j :: 0 <= j < |rs| ==> rs[j].radius == RADII[j]
    ensures FindRadius(rs, RADII[k]) == Some(rs[k])
  {
    RadiiDistinct();
    FindRadiusAtIn(rs, RADII, k);
  }

  /** Every matrix row covers every radius, every cell of it is consistent
      for a non-negative number of property types, and the cell for RADII[k]
      is the k-th one. */
  lemma MatrixRows(propertyTypes: int, queryMode: string, cosDeg: real -> real, i: nat, k: nat)
    requires CosPositive(cosDeg) && i < |AREAS| && k < |RADII|
    ensures CoversRadii(Matrix(propertyTypes, queryMode, cosDeg)[i])
    ensures FindRadius(Matrix(propertyTypes, queryMode, cosDeg)[i].radii, RADII[k])
         == Some(Matrix(propertyTypes, queryMode, cosDeg)[i].radii[k])
    ensures propertyTypes >= 0 ==> Consistent(Matrix(propertyTypes, queryMode, cosDeg)[i].radii[k])
  {
    var rs := Matrix(propertyTypes, queryMode, cosDeg)[i].radii;
    forall j | 0 <= j < |RADII| ensures FindRadius(rs, RADII[j]) == Some(rs[j]) {
      FindRadiusAt(rs, j);
    }
    if propertyTypes >= 0 {
      var x := rs[k];
      assert x.callsPerScan == x.points * propertyTypes;
      NonNegativeProduct(x.points, propertyTypes);
    }
  }

  lemma NonNegativeProduct(x: nat, y: int)
    requires y >= 0
    ensures x * y >= 0
  {
  }

  /** Every row of the matrix covers every radius. */
  lemma MatrixCovers(propertyTypes: int, queryMode: string, cosDeg: real -> real)
    requires CosPositive(cosDeg)
    ensures forall row :: row in Matrix(propertyTypes, queryMode, cosDeg) ==> CoversRadii(row)
  {
    var m := Matrix(propertyTypes, queryMode, cosDeg);
    forall row | row in m ensures CoversRadii(row) {
      var i :| 0 <= i < |m| && m[i] == row;
      MatrixRows(propertyTypes, queryMode, cosDeg, i, 0);
    }
  }

  /** The first row with a given key, when the earlier rows have other keys. */
  lemma {:induction false} FindAreaAt(m: seq<AreaRow>, key: string, i: nat)
    requires i < |m| && m[i].key == key
    requires forall j :: 0 <= j < i ==> m[j].key != key
    ensures FindArea(m, key) == Some(m[i])
  {
    if i > 0 {
      FindAreaAt(m[1..], key, i - 1);
    }
  }

  /** On the full matrix all three scenarios are present, pairing the
      Milan and Pisa municipalities, the two provinces, and the Milan
      province with the Pisa municipality. */
  lemma CombosOfMatrix(propertyTypes: int, queryMode: string, cosDeg: real -> real, m: seq<AreaRow>)
    requires CosPositive(cosDeg) && m == Matrix(propertyTypes, queryMode, cosDeg)
    ensures |m| == 4 && forall row :: row in m ==> CoversRadii(row)
    ensures |Combos(m)| == 3
    ensures Combos(m)[0].items == Items(m[0], m[2])
    ensures Combos(m)[1].items == Items(m[1], m[3])
    ensures Combos(m)[2].items == Items(m[1], m[2])
  {
    MatrixCovers(propertyTypes, queryMode, cosDeg);
    FindAreasInOrder(m);
    CombosOfRows(m);
  }

  /** Rows keyed like `AREAS`, in its order, are found at their own index. */
  lemma FindAreasInOrder(m: seq<AreaRow>)
    requires |m| == 4
    requires m[0].key == "milano_comune" && m[1].key == "milano_provincia"
    requires m[2].key == "pisa_comune" && m[3].key == "pisa_provincia"
    ensures FindArea(m, "milano_comune") == Some(m[0]) && FindArea(m, "milano_provincia") == Some(m[1])
    ensures FindArea(m, "pisa_comune") == Some(m[2]) && FindArea(m, "pisa_provincia") == Some(m[3])
  {
    FindAreaAt(m, "milano_comune", 0);
    FindAreaAt(m, "milano_provincia", 1);
    FindAreaAt(m, "pisa_comune", 2);
    FindAreaAt(m, "pisa_provincia", 3);
  }

  /** When the four areas are found at rows 0 to 3, all three scenarios are present. */
  lemma CombosOfRows(m: seq<AreaRow>)
    requires forall row :: row in m ==> CoversRadii(row)
    requires |m| >= 4
    requires FindArea(m, "milano_comune") == Some(m[0]) && FindArea(m, "milano_provincia") == Some(m[1])
    requires FindArea(m, "pisa_comune") == Some(m[2]) && FindArea(m, "pisa_provincia") == Some(m[3])
    ensures |Combos(m)| == 3
    ensures Combos(m)[0].items == Items(m[0], m[2])
    ensures Combos(m)[1].items == Items(m[1], m[3])
    ensures Combos(m)[2].items == Items(m[1], m[2])
  {
    var s1 := Scenario("Solo Comuni (MI + PI)", Some(m[0]), Some(m[2]));
    var s2 := Scenario("Province complete (MI + PI)", Some(m[1]), Some(m[3]));
    var s3 := Scenario("MI Provincia + PI Comune", Some(m[1]), Some(m[2]));
    assert Combos(m) == s1 + s2 + s3;
    ScenarioPresent("Solo Comuni (MI + PI)", m[0], m[2]);
    ScenarioPresent("Province complete (MI + PI)", m[1], m[3]);
    ScenarioPresent("MI Provincia + PI Comune", m[1], m[2]);
    ConcatSingletons(s1, s2, s3);
    assert Combos(m) == [s1[0], s2[0], s3[0]];
  }

  /** A scenario whose two areas are both found is its single line list. */
  lemma ScenarioPresent(title: string, a: AreaRow, b: AreaRow)
    requires CoversRadii(a) && CoversRadii(b)
    ensures Scenario(title, Some(a), Some(b)) == [Combo(title, Items(a, b))]
  {
  }

  lemma ConcatSingletons<T>(s1: seq<T>, s2: seq<T>, s3: seq<T>)
    requires |s1| == 1 && |s2| == 1 && |s3| == 1
    ensures s1 + s2 + s3 == [s1[0], s2[0], s3[0]]
  {
  }

  /** The k-th line of a scenario combines the two rows' k-th cells. */
  lemma ItemsAt(a: AreaRow, b: AreaRow, k: nat)
    requires CoversRadii(a) && CoversRadii(b) && k < |RADII|
    requires k < |a.radii| && k < |b.radii|
    requires FindRadius(a.radii, RADII[k]) == Some(a.radii[k])
    requires FindRadius(b.radii, RADII[k]) == Some(b.radii[k])
    ensures Items(a, b)[k] == Combine(RADII[k], a.radii[k], b.radii[k])
  {
  }

  /** On the full matrix, each line of each scenario sums the two areas' cells
      for its radius and never costs more than the two priced separately. */
  lemma CombosNeverDearer(propertyTypes: int, queryMode: string, cosDeg: real -> real,
                          m: seq<AreaRow>, c: nat, a: nat, b: nat, k: nat)
    requires CosPositive(cosDeg) && propertyTypes >= 0 && k < |RADII|
    requires m == Matrix(propertyTypes, queryMode, cosDeg)
    requires (c, a, b) == (0, 0, 2) || (c, a, b) == (1, 1, 3) || (c, a, b) == (2, 1, 2)
    ensures |m| == 4 && forall row :: row in m ==> CoversRadii(row)
    ensures |Combos(m)| == 3 && |Combos(m)[c].items| == |RADII|
    ensures |m[a].radii| == |RADII| && |m[b].radii| == |RADII|
    ensures Combos(m)[c].items[k] == Combine(RADII[k], m[a].radii[k], m[b].radii[k])
    ensures Combos(m)[c].items[k].pricing.total <= m[a].radii[k].pricing.total + m[b].radii[k].pricing.total
  {
    CombosOfMatrix(propertyTypes, queryMode, cosDeg, m);
    MatrixRows(propertyTypes, queryMode, cosDeg, a, k);
    MatrixRows(propertyTypes, queryMode, cosDeg, b, k);
    ItemsAt(m[a], m[b], k);
  }

  /** The volume-discount example: 4000 and 3000 calls priced together (7000
      calls at 0.70) cost 4900, against 6000 + 4500 priced apart. */
  lemma VolumeDiscountExample()
    ensures GetPrice(4000).total == 6000.0 && GetPrice(3000).total == 4500.0
    ensures GetPrice(7000).total == 4900.0
  {
    assert FindTier(PRICING, 4000, 0) == Some(2);
    assert FindTier(PRICING, 3000, 0) == Some(2);
    assert FindTier(PRICING, 7000, 0) == Some(3);
  }
}
