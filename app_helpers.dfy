/** The pure helpers of the map application's component
    (webapp-gis/src/App.jsx): the recommended subscription for a number of
    calls, the search-radius clamp, and the province filter of the
    municipality list. */
module AppHelpers {
  import opened Optional
  import opened JsText
  import opened GisFeature
  import Pricing

  // ---------------------------------------------------------------------
  // Subscriptions

  /** An annual subscription: a call capacity and a price per call in euro. */
  datatype Subscription = Subscription(chiamate: nat, prezzoUnitario: real)

  /** The price of a single top-up call, in euro. */
  const RMV_SINGOLA_EUR: real := 4.0

  /** The subscriptions, by ascending capacity. */
  const RMV_ABBONAMENTI: seq<Subscription> := [
    Subscription(300, 3.0),
    Subscription(1000, 1.5),
    Subscription(5000, 0.7),
    Subscription(10000, 0.55),
    Subscription(50000, 0.3),
    Subscription(100000, 0.2),
    Subscription(500000, 0.1)
  ]

  /** Capacities strictly increase along the table. */
  ghost predicate Ascending(table: seq<Subscription>) {
    forall i, j :: 0 <= i < j < |table| ==> table[i].chiamate < table[j].chiamate
  }

  /** `find((t) => t.chiamate >= calls)` from position `from`: the first
      entry with enough capacity, or None. */
  function FirstWithCapacity(table: seq<Subscription>, calls: int, from: nat): (r: Option<nat>)
    ensures r.Some? ==> from <= r.value < |table| && table[r.value].chiamate >= calls
    ensures r.Some? ==> forall j :: from <= j < r.value ==> table[j].chiamate < calls
    ensures r.None? ==> forall j :: from <= j < |table| ==> table[j].chiamate < calls
    decreases |table| - from
  {
    if from >= |table| then None
    else if table[from].chiamate >= calls then Some(from)
    else FirstWithCapacity(table, calls, from + 1)
  }

  /** The first entry with enough capacity, else the last entry. */
  function SubscriptionIn(table: seq<Subscription>, calls: int): Subscription
    requires |table| > 0
  {
    match FirstWithCapacity(table, calls, 0)
    case Some(i) => table[i]
    case None => table[|table| - 1]
  }

  /** The subscription recommended for `calls` calls a year. */
  function RecommendedSubscription(calls: int): Subscription {
    SubscriptionIn(RMV_ABBONAMENTI, calls)
  }

  /** Over an ascending table the rule picks the smallest capacity that is
      at least `calls`, and the largest subscription when none is. */
  lemma SmallestSufficientIn(table: seq<Subscription>, calls: int)
    requires |table| > 0 && Ascending(table)
    ensures SubscriptionIn(table, calls) in table
    ensures (exists i :: 0 <= i < |table| && table[i].chiamate >= calls) ==>
              && SubscriptionIn(table, calls).chiamate >= calls
              && forall i :: 0 <= i < |table| && table[i].chiamate >= calls ==>
                   SubscriptionIn(table, calls).chiamate <= table[i].chiamate
    ensures (forall i :: 0 <= i < |table| ==> table[i].chiamate < calls) ==>
              SubscriptionIn(table, calls) == table[|table| - 1]
  {
    match FirstWithCapacity(table, calls, 0)
    case Some(k) =>
      forall i | 0 <= i < |table| && table[i].chiamate >= calls
        ensures table[k].chiamate <= table[i].chiamate
      {
        if k < i {
          assert table[k].chiamate < table[i].chiamate;
        }
      }
    case None =>
  }

  lemma AbbonamentiAscending()
    ensures Ascending(RMV_ABBONAMENTI)
  {
  }

  /** For the subscription table: up to 500000 calls the recommendation is
      the smallest subscription that holds them; beyond that it is the
      500000-call subscription. */
  lemma RecommendedSubscriptionProperties(calls: int)
    ensures RecommendedSubscription(calls) in RMV_ABBONAMENTI
    ensures calls <= 500000 ==>
              && RecommendedSubscription(calls).chiamate >= calls
              && forall t :: t in RMV_ABBONAMENTI && t.chiamate >= calls ==>
                   RecommendedSubscription(calls).chiamate <= t.chiamate
    ensures calls > 500000 ==> RecommendedSubscription(calls) == Subscription(500000, 0.1)
  {
    AbbonamentiAscending();
    SmallestSufficientIn(RMV_ABBONAMENTI, calls);
    if calls <= 500000 {
      assert RMV_ABBONAMENTI[6].chiamate >= calls;
    }
  }

  /** The annual cost of the recommended subscription for `calls` calls. */
  function SubscriptionCost(calls: nat): real {
    (calls as real) * RecommendedSubscription(calls).prezzoUnitario
  }

  /** The cost of buying every call as a single top-up. */
  function SingleCost(calls: nat): real {
    (calls as real) * RMV_SINGOLA_EUR
  }

  /** The recommended subscription never costs more than single top-ups,
      and costs strictly less as soon as there is one call. */
  lemma SubscriptionNeverDearer(calls: nat)
    ensures SubscriptionCost(calls) <= SingleCost(calls)
    ensures calls > 0 ==> SubscriptionCost(calls) < SingleCost(calls)
  {
    RecommendedSubscriptionProperties(calls);
    var u := RecommendedSubscription(calls).prezzoUnitario;
    assert u <= 3.0;
    if calls > 0 {
      CheaperPerCall(calls, u, RMV_SINGOLA_EUR);
    }
  }

  lemma CheaperPerCall(n: nat, u: real, v: real)
    requires n > 0 && u < v
    ensures (n as real) * u < (n as real) * v
  {
  }

  /** The two tier rules of the system are different: for 1001 calls the
      interval rule of the comparison page prices at 1.5 per call, while the
      smallest-sufficient-capacity rule recommends the 5000-call subscription
      at 0.7 per call. */
  lemma TierRulesDisagree()
    ensures Pricing.GetPrice(1001).unit == 1.5
    ensures RecommendedSubscription(1001) == Subscription(5000, 0.7)
  {
    Pricing.GetPriceTier(1001);
    assert Pricing.PRICING[2] in Pricing.PRICING && Pricing.InTier(Pricing.PRICING[2], 1001);
  }

  // ---------------------------------------------------------------------
  // The search radius

  /** API limits of the search radius, in kilometres (50 m to 20 km). */
  const API_RADIUS_KM_MIN: real := 0.05
  const API_RADIUS_KM_MAX: real := 20.0

  /** `Math.max(API_RADIUS_KM_MIN, Math.min(API_RADIUS_KM_MAX, v))`. */
  function ClampRadius(v: real): (r: real)
    ensures API_RADIUS_KM_MIN <= r <= API_RADIUS_KM_MAX
    ensures API_RADIUS_KM_MIN <= v <= API_RADIUS_KM_MAX ==> r == v
    ensures v < API_RADIUS_KM_MIN ==> r == API_RADIUS_KM_MIN
    ensures v > API_RADIUS_KM_MAX ==> r == API_RADIUS_KM_MAX
  {
    Max(API_RADIUS_KM_MIN, Min(API_RADIUS_KM_MAX, v))
  }

  /** The radius after an edit of the input field: a value that is not a
      number (None) leaves the radius as it was; any number is clamped. */
  function RadiusAfterInput(current: real, v: Option<real>): (r: real)
    ensures v.None? ==> r == current
    ensures v.Some? ==> r == ClampRadius(v.value)
  {
    match v
    case None => current
    case Some(x) => ClampRadius(x)
  }

  /** Clamping twice is clamping once, and clamping keeps the order. */
  lemma ClampIdempotentMonotone(v: real, w: real)
    ensures ClampRadius(ClampRadius(v)) == ClampRadius(v)
    ensures v <= w ==> ClampRadius(v) <= ClampRadius(w)
  {
  }

  // ---------------------------------------------------------------------
  // The municipality filter

  /** An entry of the municipality list: name, province code and feature. */
  datatype ComuneItem = ComuneItem(name: string, prov: string, feature: Feature)

  /** The entry belongs to the selected province, compared case-insensitively. */
  predicate SameProvince(c: ComuneItem, selected: string) {
    Upper(c.prov) == Upper(selected)
  }

  /** The one-entry contribution of `c` to the filtered list. */
  function Keep(c: ComuneItem, selected: string): seq<ComuneItem> {
    if SameProvince(c, selected) then [c] else []
  }

  /** `filter` by `SameProvince`, in list order. */
  function FilterProvince(list: seq<ComuneItem>, selected: string): (r: seq<ComuneItem>)
    ensures |r| <= |list|
    ensures forall c :: c in r <==> c in list && SameProvince(c, selected)
    ensures multiset(r) <= multiset(list)
  {
    if list == [] then []
    else
      var rest := FilterProvince(list[1..], selected);
      assert list == [list[0]] + list[1..];
      Keep(list[0], selected) + rest
  }

  /** `comuniFiltered`: the whole list when no province is selected,
      otherwise the entries of the selected province. */
  function ComuniFiltered(list: seq<ComuneItem>, selected: string): (r: seq<ComuneItem>)
    ensures selected == "" ==> r == list
    ensures selected != "" ==> forall c :: c in r <==> c in list && SameProvince(c, selected)
  {
    if selected != "" then FilterProvince(list, selected) else list
  }

  /** The filter keeps list order: filtering a concatenation concatenates
      the filtered parts. */
  lemma {:induction false} FilterAppend(a: seq<ComuneItem>, b: seq<ComuneItem>, selected: string)
    ensures FilterProvince(a + b, selected) == FilterProvince(a, selected) + FilterProvince(b, selected)
    decreases |a|
  {
    if a == [] {
      assert a + b == b;
    } else {
      assert (a + b)[1..] == a[1..] + b;
      assert (a + b)[0] == a[0];
      FilterAppend(a[1..], b, selected);
      var head := Keep(a[0], selected);
      var fa, fb := FilterProvince(a[1..], selected), FilterProvince(b, selected);
      assert FilterProvince(a + b, selected) == head + (fa + fb);
      assert head + (fa + fb) == (head + fa) + fb;
    }
  }

  /** Filtering again by the same province changes nothing. */
  lemma {:induction false} FilterIdempotent(list: seq<ComuneItem>, selected: string)
    ensures FilterProvince(FilterProvince(list, selected), selected) == FilterProvince(list, selected)
    decreases |list|
  {
    if list != [] {
      FilterIdempotent(list[1..], selected);
      var rest := FilterProvince(list[1..], selected);
      var f := FilterProvince(list, selected);
      if SameProvince(list[0], selected) {
        assert f == [list[0]] + rest;
        assert f[0] == list[0] && f[1..] == rest;
        assert FilterProvince(f, selected) == Keep(f[0], selected) + FilterProvince(f[1..], selected);
      } else {
        assert f == rest;
      }
    }
  }

  /** The selection is compared case-insensitively: selections that read
      the same in upper case give the same list. */
  lemma SelectionCaseInsensitive(list: seq<ComuneItem>, s1: string, s2: string)
    requires Upper(s1) == Upper(s2)
    ensures FilterProvince(list, s1) == FilterProvince(list, s2)
  {
  }
}
