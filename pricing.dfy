/** The call-count price table of the comparison page and its first-match
    lookup (`PRICING` and `getPrice` in confronto-comune-vs-provincia.jsx).
    The lookup is written against any table; the facts about it are proved
    for every table that is well formed in the sense of `Partition`, and the
    table the page ships is shown to be one. */
module Pricing {
  import opened Optional

  /** Upper end of a tier: a call count, or the unbounded last tier. */
  datatype Bound = AtMost(n: int) | Unbounded

  datatype Tier = Tier(min: int, max: Bound, price: real, name: string)

  /** Result of `getPrice`: unit price, total cost and tier label. */
  datatype Price = Price(unit: real, total: real, tier: string)

  const PRICING: seq<Tier> := [
    Tier(0, AtMost(299), 4.0, "PAYG"),
    Tier(300, AtMost(999), 3.0, "300"),
    Tier(1000, AtMost(4999), 1.5, "1K"),
    Tier(5000, AtMost(9999), 0.7, "5K"),
    Tier(10000, AtMost(49999), 0.55, "10K"),
    Tier(50000, AtMost(99999), 0.3, "50K"),
    Tier(100000, AtMost(499999), 0.2, "100K"),
    Tier(500000, Unbounded, 0.1, "500K")
  ]

  /** The tier's predicate `calls >= p.min && calls <= p.max`. */
  predicate InTier(t: Tier, calls: int) {
    t.min <= calls && (t.max.Unbounded? || calls <= t.max.n)
  }

  /** A table whose intervals partition [0, infinity): the first minimum is 0,
      each further minimum is one more than the previous maximum, only the
      last tier is unbounded, every interval is non-empty, and unit prices are
      positive and strictly decreasing in table order. */
  ghost predicate Partition(table: seq<Tier>) {
    && |table| > 0
    && table[0].min == 0
    && table[|table| - 1].max.Unbounded?
    && (forall k :: 0 <= k < |table| - 1 ==> Adjacent(table, k))
    && table[|table| - 1].price > 0.0
  }

  /** Tier k is bounded and non-empty, tier k + 1 starts right after it, and
      is cheaper per call. */
  ghost predicate Adjacent(table: seq<Tier>, k: nat)
    requires k + 1 < |table|
  {
    && table[k].max.AtMost? && table[k].min <= table[k].max.n
    && table[k + 1].min == table[k].max.n + 1
    && table[k + 1].price < table[k].price
  }

  /** `Array.prototype.find` over the table from index `from`: the index of
      the first tier containing `calls`, if any. */
  function FindTier(table: seq<Tier>, calls: int, from: nat): (r: Option<nat>)
    requires from <= |table|
    ensures r.Some? ==> from <= r.value < |table| && InTier(table[r.value], calls)
    ensures r.Some? ==> forall j :: from <= j < r.value ==> !InTier(table[j], calls)
    ensures r.None? ==> forall j :: from <= j < |table| ==> !InTier(table[j], calls)
    decreases |table| - from
  {
    if from == |table| then None
    else if InTier(table[from], calls) then Some(from)
    else FindTier(table, calls, from + 1)
  }

  /** The tier the lookup settles on: the first match, or the table's first
      tier when nothing matches. */
  function TierIn(table: seq<Tier>, calls: int): (t: Tier)
    requires |table| > 0
    ensures t in table
  {
    match FindTier(table, calls, 0)
    case Some(k) => table[k]
    case None => table[0]
  }

  /** Price of `calls` under `table`: the total is the call count times the
      tier's unit price, with no rounding. */
  function PriceIn(table: seq<Tier>, calls: int): (r: Price)
    requires |table| > 0
  {
    var t := TierIn(table, calls);
    Price(t.price, (calls as real) * t.price, t.name)
  }

  /** `getPrice(calls)` over the shipped table. */
  function GetPrice(calls: int): (r: Price)
  {
    PriceIn(PRICING, calls)
  }

  // ---------------------------------------------------------------------
  // Facts about well-formed tables

  /** In a partitioning table an earlier tier lies wholly below a later one. */
  lemma {:induction false} TiersOrdered(table: seq<Tier>, i: nat, j: nat)
    requires Partition(table) && i < j < |table|
    ensures table[i].max.AtMost? && table[i].max.n < table[j].min
    ensures table[j].price < table[i].price
    decreases j - i
  {
    assert Adjacent(table, i);
    if j > i + 1 {
      assert Adjacent(table, i + 1);
      TiersOrdered(table, i + 1, j);
    }
  }

  /** Tier minima are non-negative, so negative counts match no tier. */
  lemma {:induction false} MinNonNegative(table: seq<Tier>, k: nat)
    requires Partition(table) && k < |table|
    ensures table[k].min >= 0
    decreases k
  {
    if k > 0 { MinNonNegative(table, k - 1); assert Adjacent(table, k - 1); }
  }

  /** Every non-negative count lies in some tier at or after `from`, provided
      it is not below that tier's minimum. */
  lemma {:induction false} Covered(table: seq<Tier>, calls: int, from: nat)
    requires Partition(table) && from < |table| && table[from].min <= calls
    ensures FindTier(table, calls, from).Some?
    decreases |table| - from
  {
    if !InTier(table[from], calls) {
      assert Adjacent(table, from);
      Covered(table, calls, from + 1);
    }
  }

  /** A count matches at most one tier, so the first match is the only one. */
  lemma UniqueTier(table: seq<Tier>, calls: int, i: nat, j: nat)
    requires Partition(table) && i < |table| && j < |table|
    requires InTier(table[i], calls) && InTier(table[j], calls)
    ensures i == j
  {
    if i < j { TiersOrdered(table, i, j); }
    if j < i { TiersOrdered(table, j, i); }
  }

  /** The lookup finds a tier exactly for the non-negative counts. */
  lemma FindTierTotal(table: seq<Tier>, calls: int)
    requires Partition(table)
    ensures FindTier(table, calls, 0).Some? <==> calls >= 0
  {
    if calls >= 0 {
      Covered(table, calls, 0);
    } else {
      var r := FindTier(table, calls, 0);
      if r.Some? { MinNonNegative(table, r.value); }
    }
  }

  /** A larger count never lands in an earlier tier. */
  lemma FindTierMonotone(table: seq<Tier>, a: int, b: int)
    requires Partition(table) && 0 <= a <= b
    ensures FindTier(table, a, 0).Some? && FindTier(table, b, 0).Some?
    ensures FindTier(table, a, 0).value <= FindTier(table, b, 0).value
  {
    FindTierTotal(table, a);
    FindTierTotal(table, b);
    var i, j := FindTier(table, a, 0).value, FindTier(table, b, 0).value;
    if j < i { TiersOrdered(table, j, i); }
  }

  /** Unit price is non-increasing in the call count. */
  lemma UnitNonIncreasingIn(table: seq<Tier>, a: int, b: int)
    requires Partition(table) && 0 <= a <= b
    ensures PriceIn(table, b).unit <= PriceIn(table, a).unit
  {
    FindTierMonotone(table, a, b);
    var i, j := FindTier(table, a, 0).value, FindTier(table, b, 0).value;
    if i < j { TiersOrdered(table, i, j); }
  }

  /** Every unit price of a partitioning table is positive. */
  lemma UnitPositiveIn(table: seq<Tier>, calls: int)
    requires Partition(table)
    ensures PriceIn(table, calls).unit > 0.0
  {
    var t := TierIn(table, calls);
    var k :| 0 <= k < |table| && table[k] == t;
    if k < |table| - 1 { TiersOrdered(table, k, |table| - 1); }
  }

  /** Within one tier, the total strictly increases with the count. */
  lemma TotalIncreasesWithinTierIn(table: seq<Tier>, a: int, b: int)
    requires Partition(table) && a < b && TierIn(table, a) == TierIn(table, b)
    ensures PriceIn(table, a).total < PriceIn(table, b).total
  {
    var u := TierIn(table, a).price;
    UnitPositiveIn(table, a);
    ScaleStrict(a as real, b as real, u);
    assert PriceIn(table, a).total == (a as real) * u;
    assert PriceIn(table, b).total == (b as real) * u;
  }

  /** Pricing a combined count never costs more than pricing its parts. */
  lemma CombinedNeverDearerIn(table: seq<Tier>, a: int, b: int)
    requires Partition(table) && a >= 0 && b >= 0
    ensures PriceIn(table, a + b).total <= PriceIn(table, a).total + PriceIn(table, b).total
  {
    var pa, pb, p := PriceIn(table, a), PriceIn(table, b), PriceIn(table, a + b);
    UnitNonIncreasingIn(table, a, a + b);
    UnitNonIncreasingIn(table, b, a + b);
    TotalsSubadditive(a, b, pa, pb, p);
  }

  /** Totals at a unit price no higher than either part's never exceed the
      parts' totals together. */
  lemma TotalsSubadditive(a: int, b: int, pa: Price, pb: Price, p: Price)
    requires a >= 0 && b >= 0 && p.unit <= pa.unit && p.unit <= pb.unit
    requires pa.total == (a as real) * pa.unit && pb.total == (b as real) * pb.unit
    requires p.total == ((a + b) as real) * p.unit
    ensures p.total <= pa.total + pb.total
  {
    Subadditive(a, b, pa.unit, pb.unit, p.unit);
  }

  /** The arithmetic behind the volume discount. */
  lemma Subadditive(a: int, b: int, ua: real, ub: real, u: real)
    requires a >= 0 && b >= 0 && u <= ua && u <= ub
    ensures ((a + b) as real) * u <= (a as real) * ua + (b as real) * ub
  {
    var x, y := a as real, b as real;
    ScaleMonotone(x, u, ua);
    ScaleMonotone(y, u, ub);
    Distribute(x, y, u);
    assert (a + b) as real == x + y;
  }

  lemma ScaleStrict(x: real, y: real, p: real)
    requires x < y && p > 0.0
    ensures x * p < y * p
  {
  }

  lemma ScaleMonotone(x: real, u: real, v: real)
    requires x >= 0.0 && u <= v
    ensures x * u <= x * v
  {
  }

  lemma Distribute(x: real, y: real, p: real)
    ensures (x + y) * p == x * p + y * p
  {
  }

  // ---------------------------------------------------------------------
  // Facts about the shipped table and getPrice

  lemma PricingIsPartition()
    ensures Partition(PRICING)
  {
  }

  /** For every count >= 0, getPrice uses the one tier whose interval holds
      it; the fallback to the first tier happens only for negative counts. */
  lemma GetPriceTier(calls: int)
    ensures calls >= 0 ==> InTier(TierIn(PRICING, calls), calls)
    ensures calls >= 0 ==> forall t :: t in PRICING && InTier(t, calls) ==> t == TierIn(PRICING, calls)
    ensures FindTier(PRICING, calls, 0).None? <==> calls < 0
    ensures GetPrice(calls).unit == TierIn(PRICING, calls).price
    ensures GetPrice(calls).tier == TierIn(PRICING, calls).name
  {
    PricingIsPartition();
    FindTierTotal(PRICING, calls);
    if calls >= 0 {
      var k := FindTier(PRICING, calls, 0).value;
      forall t | t in PRICING && InTier(t, calls) ensures t == TierIn(PRICING, calls) {
        var j :| 0 <= j < |PRICING| && PRICING[j] == t;
        UniqueTier(PRICING, calls, j, k);
      }
    }
  }

  /** getPrice's unit price is positive and non-increasing in the count. */
  lemma UnitNonIncreasing(a: int, b: int)
    requires 0 <= a <= b
    ensures 0.0 < GetPrice(b).unit <= GetPrice(a).unit
  {
    PricingIsPartition();
    UnitNonIncreasingIn(PRICING, a, b);
    UnitPositiveIn(PRICING, b);
  }

  /** Zero calls cost nothing. */
  lemma ZeroCallsFree()
    ensures GetPrice(0).total == 0.0
  {
  }

  /** Within one tier, getPrice's total strictly increases with the count. */
  lemma TotalIncreasesWithinTier(a: int, b: int)
    requires a < b && TierIn(PRICING, a) == TierIn(PRICING, b)
    ensures GetPrice(a).total < GetPrice(b).total
  {
    PricingIsPartition();
    TotalIncreasesWithinTierIn(PRICING, a, b);
  }

  /** The total is not monotone across a tier boundary: 299 calls cost more
      than 300 calls. */
  lemma TotalNotMonotone()
    ensures GetPrice(299).total > GetPrice(300).total
  {
    assert FindTier(PRICING, 299, 0) == Some(0);
    assert FindTier(PRICING, 300, 0) == Some(1);
  }

  /** Pricing a combined count never costs more than pricing its parts
      separately: the volume discount applies to the sum. */
  lemma CombinedNeverDearer(a: int, b: int)
    requires a >= 0 && b >= 0
    ensures GetPrice(a + b).total <= GetPrice(a).total + GetPrice(b).total
  {
    PricingIsPartition();
    CombinedNeverDearerIn(PRICING, a, b);
  }
}
