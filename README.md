# Coverage and cost estimation for a real-estate transactions API

This project models the estimation engine of a small web application. The
engine decides how many search calls it takes to cover an Italian
municipality or province with circles of a given radius, and what those
calls cost. Around it sit the helpers of the map application, the
serverless handler that forwards a circle grid to a spreadsheet script, and
the converter that reprojects the ISTAT shapefiles to longitude/latitude.

Modules, one per file:

- `Lattice`: index-based raster walks. The k-th cursor is `lo + k * step`, with a closed-form count and the row-major visiting order.
- `Pricing`: the `PRICING` tier table and `getPrice`. The lemmas are stated for any well-formed tier table and then applied to the shipped one.
- `ComparisonGrid`: the metre/degree conversions, `calcGrid` and the capped `MiniGrid` point list.
- `Scenarios`: the area × radius matrix, the coverage percentage and the three two-area combos, each priced once.
- `JsText`: JavaScript's `trim`, the `\s+` collapse, and `toUpperCase` on ASCII.
- `Json`: JSON values.
- `GisFeature`: property lookup with fallbacks, the outer-ring bounding box and the `Shape_Area` branch of the area.
- `CircleGrid`: the two-pass, deduplicated circle cover and `countCirclesToCover`.
- `AppHelpers`: the smallest-sufficient subscription rule, the radius clamp and the province filter.
- `SaveGrid`: the request guards, `parseInt`, the payload and the forwarding of the upstream reply.
- `Reproject`: `transformCoord` and the geometry, feature and collection rewrites.

Modelling choices:

- Floating-point numbers become exact reals.
- A raster cursor is computed from its index, not accumulated.
- These foreign pieces are function parameters:
  - `Math.cos` (assumed positive);
  - the turf predicates, circle and area;
  - the `toFixed` key;
  - proj4's forward projection;
  - `JSON.parse`;
  - `String` of numbers, arrays and objects;
  - the upstream `fetch`.
- Where the source updates local state in loops, the model is a method with loop invariants, proved equal to a specification function:
  - `calcGrid`, the `MiniGrid` push loop, `getProp`, `getBounds`, and the two passes of `getCircleGrid`.
  - Lemmas about that function then state what the source promises.

Three facts about the code that a reader might not expect:
1. The raster size is `floor((hi - lo) / step) + 1` points per axis, not a ceiling division.
2. The total price is not monotone in the number of calls: 299 calls cost more than 300 (`Pricing.TotalNotMonotone`).
3. A larger overlap factor gives a larger step and so never more raster points (`ComparisonGrid.GridAntitoneInOverlap`).

## Model

| member | source | states |
|---|---|---|
| Lattice.CoordWithin | confronto-comune-vs-provincia.jsx:63-64 | the loop guard `lo + k*step <= hi` holds exactly for the first `floor((hi-lo)/step)+1` indices |
| Lattice.CountAntitone | confronto-comune-vs-provincia.jsx:63-64 | a larger step never yields more cursor values over the same interval |
| Lattice.RowMajorLength | confronto-comune-vs-provincia.jsx:63-67 | the nested loops visit rows × columns points |
| Lattice.RowMajorMembers | webapp-gis/src/App.jsx:131-132 | a point is visited iff its latitude is on the outer axis and its longitude on the inner axis |
| Pricing.FindTier | confronto-comune-vs-provincia.jsx:85 | `find` returns the first tier containing the calls, or none when no tier does |
| Pricing.PricingIsPartition | confronto-comune-vs-provincia.jsx:73-82 | the table starts at 0, each `min` is the previous `max`+1, prices strictly fall, and the last tier is unbounded |
| Pricing.UniqueTier | confronto-comune-vs-provincia.jsx:73-82 | in a partition at most one tier contains a given call count, so the first match is the only match |
| Pricing.GetPriceTier | confronto-comune-vs-provincia.jsx:84-87 | for calls ≥ 0 the chosen tier contains the calls and is the unique such tier; the `PRICING[0]` fallback is reached exactly for negative calls; `getPrice` reports that tier's unit price and name |
| Pricing.UnitNonIncreasing | confronto-comune-vs-provincia.jsx:73-85 | for 0 ≤ a ≤ b the unit price of b is positive and at most that of a |
| Pricing.ZeroCallsFree | confronto-comune-vs-provincia.jsx:86 | zero calls cost nothing |
| Pricing.TotalIncreasesWithinTier | confronto-comune-vs-provincia.jsx:86 | within one tier the total strictly increases with the calls |
| Pricing.TotalNotMonotone | confronto-comune-vs-provincia.jsx:74-75 | 299 calls cost more than 300 calls |
| Pricing.CombinedNeverDearer | confronto-comune-vs-provincia.jsx:84-87 | for a, b ≥ 0 pricing a+b together never costs more than pricing a and b apart |
| Pricing.CombinedNeverDearerIn | confronto-comune-vs-provincia.jsx:84-87 | the same for any tier table that partitions [0, ∞) with falling prices |
| ComparisonGrid.MetersToDegLat | confronto-comune-vs-provincia.jsx:54 | the latitude span times 111320 is the distance in metres |
| ComparisonGrid.MetersToDegLng | confronto-comune-vs-provincia.jsx:55 | the longitude span times 111320·cos(lat) is the distance; positive for a positive distance |
| ComparisonGrid.CalcGrid | confronto-comune-vs-provincia.jsx:57-69 | the nested cursor loops count exactly rows × columns lattice points |
| ComparisonGrid.GridAtLeastOne | confronto-comune-vs-provincia.jsx:57-68 | a box with south ≤ north and west ≤ east yields at least one point |
| ComparisonGrid.GridAntitoneInRadius | confronto-comune-vs-provincia.jsx:58-67 | for fixed bounds and overlap a larger radius never gives more points |
| ComparisonGrid.GridAntitoneInOverlap | confronto-comune-vs-provincia.jsx:57-61 | for fixed bounds and radius a larger overlap never gives more points |
| ComparisonGrid.Cap | confronto-comune-vs-provincia.jsx:103 | the capped list is the prefix of length min(|s|, n) |
| ComparisonGrid.CapPush | confronto-comune-vs-provincia.jsx:103 | pushing under the cap appends while below it and changes nothing at it |
| ComparisonGrid.MiniGridPoints | confronto-comune-vs-provincia.jsx:100-105 | the drawn points are the lattice in visiting order cut after 300, so there are min(calcGrid, 300) of them |
| Scenarios.TotalCalls | confronto-comune-vs-provincia.jsx:136 | annual mode keeps the calls per scan, any other mode multiplies by 12 |
| Scenarios.MonthlyIsTwelveAnnual | confronto-comune-vs-provincia.jsx:135-137 | a monthly cell has 12 times the calls of the annual cell, and its price is `getPrice` of twelve times the annual total |
| Scenarios.Coverage | confronto-comune-vs-provincia.jsx:138-139 | the coverage is between 0 and 999; it equals the raw percentage whenever that is at most 999, and is 999 when the raw percentage is larger |
| Scenarios.RadiusEntry | confronto-comune-vs-provincia.jsx:133-140 | a cell keeps its radius; its points are the `calcGrid` count at overlap 0.7; calls per scan are points × property types; the period total applies the annual/monthly rule; the price is `getPrice` of that total; coverage is the capped percentage |
| Scenarios.Matrix | confronto-comune-vs-provincia.jsx:129-143 | one row per area, in table order, holding that area, with cell k the entry of that area at the k-th radius |
| Scenarios.MatrixRows | confronto-comune-vs-provincia.jsx:133-140 | every row's radius lookup finds its own cell, and for non-negative property types each cell is priced on its own total |
| Scenarios.FindArea | confronto-comune-vs-provincia.jsx:148-151 | a row `find` returns is a row of the matrix with the requested key |
| Scenarios.FindAreaFound | confronto-comune-vs-provincia.jsx:148-151 | `find` by key succeeds exactly when some row has the key, and then returns the first such row |
| Scenarios.FindRadius | confronto-comune-vs-provincia.jsx:159-160 | a cell `find` returns is a cell of the row with the requested radius |
| Scenarios.FindRadiusFound | confronto-comune-vs-provincia.jsx:159-160 | `find` by radius succeeds exactly when some cell has that radius, and then returns the first such cell |
| Scenarios.Combine | confronto-comune-vs-provincia.jsx:159-162 | a combo line keeps its radius, sums points and calls of its two cells and prices the sum once, never dearer than the two cells' prices |
| Scenarios.CombosOfMatrix | confronto-comune-vs-provincia.jsx:145-193 | all three scenarios are present, in order, pairing (MI comune, PI comune), (MI provincia, PI provincia), (MI provincia, PI comune) |
| Scenarios.CombosNeverDearer | confronto-comune-vs-provincia.jsx:158-162 | each scenario line costs at most the sum of its two areas' prices |
| Scenarios.VolumeDiscountExample | confronto-comune-vs-provincia.jsx:76-77 | 4000 and 3000 calls cost 6000 and 4500 apart, and 4900 together |
| JsText.Trim | webapp-gis/src/App.jsx:49 | the result has no leading or trailing white space, is the middle of the input, and is empty iff the input is all white space |
| JsText.TrimIdempotent | webapp-gis/src/App.jsx:49 | trimming twice is trimming once |
| JsText.CollapseSpaces | webapp-gis/api/salva-griglia.js:52 | every run of white space becomes one space, and the result is empty only for empty input |
| JsText.CollapseNoSpace | webapp-gis/api/salva-griglia.js:52 | text without white space is left unchanged |
| JsText.CollapseRun | webapp-gis/api/salva-griglia.js:52 | a maximal white-space run between two parts becomes exactly one space at its own place, and the two sides collapse independently |
| JsText.NonSpaceCollapse | webapp-gis/api/salva-griglia.js:52 | the collapse keeps every non-white-space character, in order, and adds none |
| JsText.NonSpaceTrim | webapp-gis/src/App.jsx:49 | `trim` keeps every non-white-space character, in order |
| JsText.NonSpaceEmpty | webapp-gis/src/App.jsx:49 | a string has no non-white-space character exactly when it is all white space |
| JsText.Upper | webapp-gis/src/App.jsx:265 | each character is upper-cased in place and the length is kept |
| GisFeature.FilledCases | webapp-gis/src/App.jsx:49 | a key is skipped exactly when it is missing, null or only whitespace; otherwise its value is the trimmed text |
| GisFeature.FirstFilled | webapp-gis/src/App.jsx:48-49 | the index of the first key in list order that is filled; none when no key is |
| GisFeature.Prop | webapp-gis/src/App.jsx:46-52 | the trimmed value of the first key whose value is non-null and non-blank; "" iff there is none |
| GisFeature.GetProp | webapp-gis/src/App.jsx:46-52 | the loop with early return computes `Prop` |
| GisFeature.ProvName | webapp-gis/src/App.jsx:54-56 | never "": the name keys when any is filled, else the sigla keys, else the placeholder `—` |
| GisFeature.ProvSigla | webapp-gis/src/App.jsx:57-59 | the sigla keys when any is filled, else the name keys; "" exactly when both lists are blank |
| GisFeature.ComuneName | webapp-gis/src/App.jsx:60-62 | never "": the name keys when any is filled, else the placeholder `—` |
| GisFeature.ComuneProv | webapp-gis/src/App.jsx:63-65 | the value of the province keys as `getProp` finds it; "" exactly when no province key is filled |
| GisFeature.BoundsOf | webapp-gis/src/App.jsx:74-85 | none iff no position has both components; otherwise min ≤ max, every usable position is inside, and each bound is attained |
| GisFeature.Bounds | webapp-gis/src/App.jsx:67-73 | null without geometry or coordinates and for other types; otherwise the box of the outer rings only |
| GisFeature.GetBounds | webapp-gis/src/App.jsx:67-86 | the running min/max loop computes `Bounds` |
| GisFeature.AreaKm2 | webapp-gis/src/App.jsx:88-97 | a positive `Shape_Area` gives a positive area whose value × 10⁶ is `Shape_Area`; otherwise the area of `turfArea` divided by 10⁶, null when it throws |
| CircleGrid.StepDegLat | webapp-gis/src/App.jsx:110-114 | a positive latitude step whose length × 111.32 is 2·r·0.78 km |
| CircleGrid.StepDegLng | webapp-gis/src/App.jsx:110-115 | a positive longitude step, converted at the box's mid-latitude |
| CircleGrid.HalfStepAxis | webapp-gis/src/App.jsx:131-132 | the cursors run from the minimum in steps; an index is on the axis exactly when its cursor meets the guard `≤ max + step/2` |
| CircleGrid.ScanPass | webapp-gis/src/App.jsx:131-140 | the nested loops of one pass compute `Pass` over the raster in visiting order |
| CircleGrid.GetCircleGrid | webapp-gis/src/App.jsx:105-142 | the method computes the two-pass specification `CircleGridOf` |
| CircleGrid.CountCirclesToCover | webapp-gis/src/App.jsx:99-102 | null iff there is no grid; otherwise the number of distinct keys of raster points whose circle touches the polygon |
| CircleGrid.VisitKeepsInv | webapp-gis/src/App.jsx:121-129 | `addCircle` keeps the parallel arrays equal in length, keys unique and `added` equal to the centre keys |
| CircleGrid.PassAdded | webapp-gis/src/App.jsx:122-126 | a pass adds exactly the keys of the tried points whose circle touches the polygon |
| CircleGrid.PassAppends | webapp-gis/src/App.jsx:127-128 | a pass only appends centres, at most one per point, each a tried point of the pass |
| CircleGrid.TwoPassFacts | webapp-gis/src/App.jsx:131-140 | after both passes the key set is that of all touching points, every centre is a point of the list, there are no more centres than points, and the interior centres come first |
| CircleGrid.KeysAtMost | webapp-gis/src/App.jsx:119-121 | a list of points has at most as many distinct keys as elements |
| CircleGrid.CentersAtMost | webapp-gis/src/App.jsx:119-124 | centres with distinct keys, all drawn from a point list, are at most as many as the points of that list |
| CircleGrid.CircleGridProperties | webapp-gis/src/App.jsx:105-142 | null iff r ≤ 0 or no bounds; circles match centres one to one; keys are unique and equal the touching raster keys; interior centres come first and lie inside; there are at most as many centres as raster points |
| CircleGrid.KeysIndependentOfInside | webapp-gis/src/App.jsx:131-140 | the final key set does not depend on the point-in-polygon test |
| AppHelpers.FirstWithCapacity | webapp-gis/src/App.jsx:609 | the first entry with capacity ≥ calls, or none |
| AppHelpers.SmallestSufficientIn | webapp-gis/src/App.jsx:609 | over an ascending table: the smallest capacity ≥ calls, else the last entry |
| AppHelpers.RecommendedSubscriptionProperties | webapp-gis/src/App.jsx:19-28 | up to 500000 calls the smallest sufficient subscription, beyond it the 500000 one |
| AppHelpers.SubscriptionNeverDearer | webapp-gis/src/App.jsx:607-610 | the subscription never costs more than calls × 4 and costs less for any call |
| AppHelpers.TierRulesDisagree | webapp-gis/src/App.jsx:609 | for 1001 calls this rule gives 0.7 per call where `getPrice` gives 1.5 |
| AppHelpers.ClampRadius | webapp-gis/src/App.jsx:577 | the radius lies in [0.05, 20] km, is unchanged inside, and goes to the nearer limit outside |
| AppHelpers.RadiusAfterInput | webapp-gis/src/App.jsx:575-577 | a NaN input leaves the radius, a number is clamped |
| AppHelpers.ClampIdempotentMonotone | webapp-gis/src/App.jsx:577 | clamping is idempotent and order-preserving |
| AppHelpers.FilterProvince | webapp-gis/src/App.jsx:265 | exactly the entries of the selected province, case-insensitively, with no entry added |
| AppHelpers.ComuniFiltered | webapp-gis/src/App.jsx:264-266 | the whole list with no selection, else exactly the entries of the selected province |
| AppHelpers.FilterAppend | webapp-gis/src/App.jsx:265 | the filter keeps order: it distributes over concatenation |
| AppHelpers.FilterIdempotent | webapp-gis/src/App.jsx:265 | filtering twice is filtering once |
| AppHelpers.SelectionCaseInsensitive | webapp-gis/src/App.jsx:265 | selections equal in upper case give equal lists |
| SaveGrid.ParseIntDecimal | webapp-gis/api/salva-griglia.js:28 | `parseInt` reads back any integer written in decimal, whatever non-digit follows |
| SaveGrid.ParseIntOfWords | webapp-gis/api/salva-griglia.js:28-29 | "undefined", "null", "true", "false" and "" parse to NaN |
| SaveGrid.BodyValue | webapp-gis/api/salva-griglia.js:18-23 | a string body is parsed, an absent or falsy body becomes `{}`, any other body is used as it is |
| SaveGrid.PropertyType | webapp-gis/api/salva-griglia.js:32-33 | always a valid type; the given one when valid, the residential default otherwise |
| SaveGrid.AreaOf | webapp-gis/api/salva-griglia.js:40 | `area` is copied iff it is a string |
| SaveGrid.Validate | webapp-gis/api/salva-griglia.js:5-40 | a non-POST gets 405 with `Allow: POST` first, missing configuration 500, bad JSON 400, a `null` body crashes; an accepted payload carries the token, the non-empty centres, the parsed radius in [50, 20000], the property type and the area |
| SaveGrid.ValidateBody | webapp-gis/api/salva-griglia.js:24-31 | bad centres give 400, then a NaN or out-of-range radius gives 400; the payload exactly when both pass |
| SaveGrid.Preview | webapp-gis/api/salva-griglia.js:52-57 | 1 to 300 characters; "(vuoto)" when the first 400 characters are all white space; otherwise the first 300 characters of the collapsed, trimmed text, which keeps the non-white-space characters of the first 400 in order |
| SaveGrid.Forward | webapp-gis/api/salva-griglia.js:41-69 | network failure and non-JSON replies give 502; a JSON reply is passed through with 200 when ok, else with its own status |
| SaveGrid.Handler | webapp-gis/api/salva-griglia.js:5-70 | rejections are answered as such, the null body crashes, and only an accepted payload reaches `fetch` |
| SaveGrid.OnlyPostReachesUpstream | webapp-gis/api/salva-griglia.js:6-17 | only a POST with URL and token configured is accepted |
| SaveGrid.PropertyTypeNeverRejects | webapp-gis/api/salva-griglia.js:32-33 | changing `property_type` never changes whether or how a request is rejected |
| SaveGrid.IntegerRadius | webapp-gis/api/salva-griglia.js:28-31 | an integer radius, sent as a JSON number whose `String` is its decimal text or as that decimal string, is accepted unchanged in [50, 20000] and rejected with 400 outside |
| SaveGrid.UpstreamStatus | webapp-gis/api/salva-griglia.js:60-63 | an ok JSON reply becomes 200 and any other status is forwarded, with the parsed body |
| Reproject.TransformCoord | webapp-gis/scripts/convert-shp-to-geojson.cjs:19-30 | positions without x or y, or already in lon/lat range, are unchanged; others get the projected pair with the extra components kept; a throwing projection leaves them; an array keeps its length and each element is the transform of the element at the same index |
| Reproject.TransformPreservesShape | webapp-gis/scripts/convert-shp-to-geojson.cjs:20 | the nesting, every array length and every position length are kept |
| Reproject.TransformIdempotent | webapp-gis/scripts/convert-shp-to-geojson.cjs:23-26 | with a projection into lon/lat range, a second transform changes nothing |
| Reproject.ReprojectGeometry | webapp-gis/scripts/convert-shp-to-geojson.cjs:32-37 | missing geometry or coordinates are returned as they are; otherwise only type, transformed coordinates and the untouched bbox |
| Reproject.ReprojectFeature | webapp-gis/scripts/convert-shp-to-geojson.cjs:39-42 | other members are kept and a missing geometry stays missing |
| Reproject.ReprojectCollection | webapp-gis/scripts/convert-shp-to-geojson.cjs:44-47 | other members are kept and the features keep number and order, each reprojected |
| Reproject.FeatureIdempotent | webapp-gis/scripts/convert-shp-to-geojson.cjs:39-42 | with a projection into range, reprojecting a feature twice is reprojecting it once |
| Reproject.CollectionIdempotent | webapp-gis/scripts/convert-shp-to-geojson.cjs:44-47 | with a projection into range, converting a collection twice is converting it once |

## Left out

- React state, effects and rendering are not modelled: the component UI, the `MiniGrid` SVG drawing and the deck.gl/MapLibre layers. They are presentation.
- The data-loading effect and its cache are not modelled. They are `fetch` I/O, and their `localeCompare` sorts depend on locale collation.
- The clipboard, `alert`, and the POST the application sends to the handler are I/O.
- The converter's shapefile reading, file writes, main loop and logging are I/O.
- The internals of turf (`turfCircle`, `booleanIntersects`, `booleanPointInPolygon`, `turfArea`) and of proj4 are foreign libraries. They are parameters.
- `Math.cos` is a parameter assumed positive, which holds at every latitude the system handles.
- Floating point is not modelled: reals are exact, and the cursor of `lat += step` carries no drift.
- `NaN` and `Infinity` are not modelled. The radius input's `isNaN` guard is an absent value.
- `toFixed`, `toLocaleString` and number formatting are parameters or left out.
- Pricing.GetPrice: call counts are integers; fractional counts are not modelled.
- Scenarios.Coverage: requires a positive area, which all four areas of the table have.
- GisFeature.Bounds, GisFeature.GetBounds and CircleGrid.GetCircleGrid: require every polygon to have an outer ring; a polygon without one makes the source throw.
- CircleGrid.GetCircleGrid: a radius that is `NaN` or not a number is not modelled.
- CircleGrid.GetCircleGrid: a turf circle is kept as its centre and radius.
- JsText.Upper: upper-cases ASCII letters only, where `toUpperCase` maps all of Unicode.
- AppHelpers.ComuniFiltered: an entry's province is always a string, so the `|| ''` fallback is not modelled.
- SaveGrid.Handler: the crash for a body that parses to `null` is an outcome of its own. The platform's response to the uncaught TypeError is not modelled.
- SaveGrid.Validate: it states the 400 for unparseable JSON in one direction only. Another 400 guard can also answer a parseable body.
- SaveGrid.Preview: slices characters; UTF-16 code units are not modelled.
- SaveGrid.StringOf: `String(v)` of numbers, arrays and objects is a parameter.
- SaveGrid: `JSON.stringify(payload)` and the request headers are not modelled. The upstream `fetch` receives the payload value.
- Reproject.TransformCoord: arrays that mix numbers and arrays at one level cannot be represented. Neither can non-numeric position components.
- Geodesic coverage is not claimed: nothing says every point of a polygon lies within a radius of some centre. The code does not guarantee it, and the application itself warns that small holes can remain.
