/**
 * The aggregates the product dashboard derives from the list of scraped
 * products: per-seller statistics, top-10 rankings, rating buckets and the
 * free/paid delivery split. The three reducers that mutate an accumulator
 * are methods with loops, each proved against a fold function over the
 * products; the sort-and-slice pipelines are functions.
 */
module Dashboard {
  import opened Wrappers
  import opened Text
  import opened Counting
  import opened Ranking

  /** A product record as the dashboard reads it; absent JSON fields are `None`. */
  datatype Product = Product(
    title: string,
    seller: Option<string>,
    extractedPrice: Option<real>,
    rating: Option<real>,
    delivery: Option<string>)

  const UnknownSeller: string := "Unknown Seller"

  /** `product.seller || "Unknown Seller"`: an absent or empty seller is falsy. */
  function SellerName(p: Product): string {
    if p.seller.Some? && p.seller.value != "" then p.seller.value else UnknownSeller
  }

  /** `product.extracted_price || 0`: an absent or zero price contributes 0. */
  function PriceOf(p: Product): real {
    if p.extractedPrice.Some? then p.extractedPrice.value else 0.0
  }

  /** `product.rating || 0`. */
  function RatingOf(p: Product): real {
    if p.rating.Some? then p.rating.value else 0.0
  }

  // ---------------------------------------------------------------------
  // sellerStats

  datatype SellerAgg = SellerAgg(count: nat, totalPrice: real, ratings: seq<real>)

  const EmptyAgg: SellerAgg := SellerAgg(0, 0.0, [])

  /** One step of the seller reducer: create the seller's record if needed, then bump it. */
  function AddToSeller(acc: map<string, SellerAgg>, p: Product): map<string, SellerAgg> {
    var s := SellerName(p);
    acc[s := Bump(if s in acc then acc[s] else EmptyAgg, p)]
  }

  /** `count += 1`, `totalPrice += price`, `ratings.push(rating)`. */
  function Bump(a: SellerAgg, p: Product): SellerAgg {
    SellerAgg(a.count + 1, a.totalPrice + PriceOf(p), a.ratings + [RatingOf(p)])
  }

  /** The seller dictionary after folding the reducer over `ps` from an empty object. */
  function SellerStats(ps: seq<Product>): map<string, SellerAgg>
    decreases |ps|
  {
    if ps == [] then map[] else AddToSeller(SellerStats(ps[..|ps| - 1]), ps[|ps| - 1])
  }

  function SellerNames(ps: seq<Product>): seq<string> {
    seq(|ps|, i requires 0 <= i < |ps| => SellerName(ps[i]))
  }

  /** `Object.keys(sellerStats)`: the sellers in order of first appearance. */
  function SellerKeys(ps: seq<Product>): seq<string> {
    Distinct(SellerNames(ps))
  }

  /** The products of seller `s`, in list order. */
  function SellerGroup(ps: seq<Product>, s: string): seq<Product>
    decreases |ps|
  {
    if ps == [] then []
    else
      var p := ps[|ps| - 1];
      SellerGroup(ps[..|ps| - 1], s) + (if SellerName(p) == s then [p] else [])
  }

  function SumPrices(g: seq<Product>): real
    decreases |g|
  {
    if g == [] then 0.0 else SumPrices(g[..|g| - 1]) + PriceOf(g[|g| - 1])
  }

  function RatingsOf(g: seq<Product>): seq<real> {
    seq(|g|, i requires 0 <= i < |g| => RatingOf(g[i]))
  }

  /** What the dashboard should record for a group of products. */
  function Aggregate(g: seq<Product>): SellerAgg {
    SellerAgg(|g|, SumPrices(g), RatingsOf(g))
  }

  /**
   * Folding the reducer is the same as grouping by seller and aggregating
   * each group: a seller has a record exactly when some product carries
   * that (defaulted) name, its count is the size of its group, its total is
   * the group's price sum, and its ratings are the group's ratings in order
   * (so there are exactly `count` of them).
   */
  lemma {:induction false} SellerStatsGroups(ps: seq<Product>)
    ensures forall s :: s in SellerStats(ps) <==> s in SellerNames(ps)
    ensures forall s :: s in SellerStats(ps) ==> SellerStats(ps)[s] == Aggregate(SellerGroup(ps, s))
    ensures forall s :: s in SellerStats(ps) ==> |SellerStats(ps)[s].ratings| == SellerStats(ps)[s].count
    ensures forall s :: s !in SellerNames(ps) ==> SellerGroup(ps, s) == []
    decreases |ps|
  {
    if ps != [] {
      var qs, p := ps[..|ps| - 1], ps[|ps| - 1];
      SellerStatsGroups(qs);
      assert SellerNames(ps) == SellerNames(qs) + [SellerName(p)];
      var n := SellerName(p);
      var st, st' := SellerStats(qs), SellerStats(ps);
      assert st' == AddToSeller(st, p);
      forall s | s in st' ensures st'[s] == Aggregate(SellerGroup(ps, s)) {
        if s == n {
          var g := SellerGroup(qs, n);
          assert SellerGroup(ps, n) == g + [p];
          AggregateSnoc(g, p);
          assert (if n in st then st[n] else EmptyAgg) == Aggregate(g) by {
            if n !in st {
              assert g == [];
              assert RatingsOf(g) == [];
            }
          }
        } else {
          assert SellerGroup(ps, s) == SellerGroup(qs, s);
        }
      }
    }
  }

  /** One more product in a group: its aggregate takes one more reducer bump. */
  lemma AggregateSnoc(g: seq<Product>, p: Product)
    ensures Aggregate(g + [p]) == Bump(Aggregate(g), p)
  {
    assert (g + [p])[..|g|] == g;
    assert RatingsOf(g + [p]) == RatingsOf(g) + [RatingOf(p)];
  }

  function CountsOf(stats: map<string, SellerAgg>): map<string, nat> {
    map s | s in stats :: stats[s].count
  }

  lemma {:induction false} SellerCountsTally(ps: seq<Product>)
    ensures CountsOf(SellerStats(ps)) == Tally(SellerNames(ps))
    decreases |ps|
  {
    if ps != [] {
      var qs, p := ps[..|ps| - 1], ps[|ps| - 1];
      SellerCountsTally(qs);
      var names := SellerNames(ps);
      assert names[..|names| - 1] == SellerNames(qs);
      CountsOfAdd(SellerStats(qs), p);
    }
  }

  /** A reducer step adds one to the seller's count and leaves the other counts alone. */
  lemma CountsOfAdd(acc: map<string, SellerAgg>, p: Product)
    ensures CountsOf(AddToSeller(acc, p)) == CountsOf(acc)[SellerName(p) := Get(CountsOf(acc), SellerName(p)) + 1]
  {
  }

  /** The per-seller counts add up to the number of products. */
  lemma SellerCountsTotal(ps: seq<Product>)
    ensures SumOf(SellerKeys(ps), CountsOf(SellerStats(ps))) == |ps|
  {
    SellerCountsTally(ps);
    TallyTotal(SellerNames(ps));
  }

  /** One more product: one more reducer step, and a new key when its seller is new. */
  lemma SellerStep(qs: seq<Product>, p: Product)
    ensures SellerStats(qs + [p]) == AddToSeller(SellerStats(qs), p)
    ensures SellerKeys(qs + [p]) ==
              if SellerName(p) in SellerKeys(qs) then SellerKeys(qs) else SellerKeys(qs) + [SellerName(p)]
  {
    assert (qs + [p])[..|qs|] == qs;
    assert SellerNames(qs + [p]) == SellerNames(qs) + [SellerName(p)];
  }

  /** The reducer step for the product at index `i`, stated on prefixes. */
  lemma SellerStepAt(ps: seq<Product>, i: nat)
    requires i < |ps|
    ensures SellerStats(ps[..i + 1]) == AddToSeller(SellerStats(ps[..i]), ps[i])
    ensures SellerName(ps[i]) in SellerStats(ps[..i]) <==> SellerName(ps[i]) in SellerKeys(ps[..i])
    ensures SellerKeys(ps[..i + 1]) ==
              if SellerName(ps[i]) in SellerStats(ps[..i]) then SellerKeys(ps[..i])
              else SellerKeys(ps[..i]) + [SellerName(ps[i])]
  {
    assert ps[..i + 1] == ps[..i] + [ps[i]];
    SellerStep(ps[..i], ps[i]);
    SellerKeysMatch(ps[..i], SellerName(ps[i]));
  }

  /** A seller has a record exactly when it is among the keys. */
  lemma SellerKeysMatch(ps: seq<Product>, s: string)
    ensures s in SellerStats(ps) <==> s in SellerKeys(ps)
  {
    SellerStatsGroups(ps);
  }

  /** Creating a missing record and then bumping it is one reducer step. */
  lemma CreateThenBump(acc: map<string, SellerAgg>, p: Product, c: map<string, SellerAgg>)
    requires c == if SellerName(p) in acc then acc else acc[SellerName(p) := EmptyAgg]
    ensures c[SellerName(p) := Bump(c[SellerName(p)], p)] == AddToSeller(acc, p)
  {
  }

  /** The `sellerStats` reducer, run over the products in order. */
  method ComputeSellerStats(ps: seq<Product>) returns (stats: map<string, SellerAgg>, keys: seq<string>)
    ensures stats == SellerStats(ps)
    ensures keys == SellerKeys(ps)
  {
    stats, keys := map[], [];
    var i := 0;
    while i < |ps|
      invariant 0 <= i <= |ps|
      invariant stats == SellerStats(ps[..i])
      invariant keys == SellerKeys(ps[..i])
    {
      var p := ps[i];
      var s := SellerName(p);
      SellerStepAt(ps, i);
      ghost var before := stats;
      if s !in stats {
        stats := stats[s := EmptyAgg];
        keys := keys + [s];
      }
      CreateThenBump(before, p, stats);
      stats := stats[s := Bump(stats[s], p)];
      i := i + 1;
    }
    assert ps[..i] == ps;
  }

  // ---------------------------------------------------------------------
  // The reducer as written, where `!acc[seller]` also sees the members that
  // every plain object inherits.

  /** The names that `{}` already answers with a truthy value. */
  const InheritedMembers: set<string> := {
    "constructor", "__proto__", "hasOwnProperty", "isPrototypeOf",
    "propertyIsEnumerable", "toLocaleString", "toString", "valueOf",
    "__defineGetter__", "__defineSetter__", "__lookupGetter__", "__lookupSetter__"}

  /**
   * One step as written: for an inherited name no record is created, so
   * `acc[seller].ratings` is undefined and `push` throws (`None`).
   */
  function AddToSellerAsWritten(acc: map<string, SellerAgg>, p: Product): Option<map<string, SellerAgg>> {
    var s := SellerName(p);
    if s !in acc && s in InheritedMembers then None else Some(AddToSeller(acc, p))
  }

  function SellerStatsAsWritten(ps: seq<Product>): Option<map<string, SellerAgg>>
    decreases |ps|
  {
    if ps == [] then Some(map[])
    else
      match SellerStatsAsWritten(ps[..|ps| - 1])
      case None => None
      case Some(acc) => AddToSellerAsWritten(acc, ps[|ps| - 1])
  }

  /** A single product sold by "constructor" makes the dashboard throw. */
  lemma ConstructorSellerThrows()
    ensures SellerStatsAsWritten([Product("Lamp", Some("constructor"), Some(10.0), Some(4.0), None)]).None?
  {
    var ps := [Product("Lamp", Some("constructor"), Some(10.0), Some(4.0), None)];
    assert ps[..0] == [];
  }

  /** Without inherited names among the sellers, the code as written computes `SellerStats`. */
  lemma {:induction false} SellerStatsAsWrittenAgrees(ps: seq<Product>)
    requires forall i :: 0 <= i < |ps| ==> SellerName(ps[i]) !in InheritedMembers
    ensures SellerStatsAsWritten(ps) == Some(SellerStats(ps))
    decreases |ps|
  {
    if ps != [] {
      SellerStatsAsWrittenAgrees(ps[..|ps| - 1]);
    }
  }

  // ---------------------------------------------------------------------
  // topSellersByProducts, topSellersByTotalPrice

  datatype SellerCount = SellerCount(seller: string, count: nat)
  datatype SellerTotal = SellerTotal(seller: string, totalPrice: real)

  function CountKey(e: SellerCount): real { e.count as real }
  function TotalKey(e: SellerTotal): real { e.totalPrice }

  function SellerCounts(stats: map<string, SellerAgg>, keys: seq<string>): seq<SellerCount>
    requires forall k :: k in keys ==> k in stats
  {
    seq(|keys|, i requires 0 <= i < |keys| => SellerCount(keys[i], stats[keys[i]].count))
  }

  function SellerTotals(stats: map<string, SellerAgg>, keys: seq<string>): seq<SellerTotal>
    requires forall k :: k in keys ==> k in stats
  {
    seq(|keys|, i requires 0 <= i < |keys| => SellerTotal(keys[i], stats[keys[i]].totalPrice))
  }

  function TopSellersByProducts(stats: map<string, SellerAgg>, keys: seq<string>): seq<SellerCount>
    requires forall k :: k in keys ==> k in stats
  {
    Top(SortDesc(SellerCounts(stats, keys), CountKey), 10)
  }

  function TopSellersByTotalPrice(stats: map<string, SellerAgg>, keys: seq<string>): seq<SellerTotal>
    requires forall k :: k in keys ==> k in stats
  {
    Top(SortDesc(SellerTotals(stats, keys), TotalKey), 10)
  }

  function CountedSellers(r: seq<SellerCount>): seq<string> {
    seq(|r|, i requires 0 <= i < |r| => r[i].seller)
  }

  lemma CountedSellersOf(r: seq<SellerCount>)
    ensures forall e :: e in r ==> e.seller in CountedSellers(r)
  {
    forall e | e in r ensures e.seller in CountedSellers(r) {
      var i :| 0 <= i < |r| && r[i] == e;
      assert CountedSellers(r)[i] == e.seller;
    }
  }

  function TotalledSellers(r: seq<SellerTotal>): seq<string> {
    seq(|r|, i requires 0 <= i < |r| => r[i].seller)
  }

  lemma TotalledSellersOf(r: seq<SellerTotal>)
    ensures forall e :: e in r ==> e.seller in TotalledSellers(r)
  {
    forall e | e in r ensures e.seller in TotalledSellers(r) {
      var i :| 0 <= i < |r| && r[i] == e;
      assert TotalledSellers(r)[i] == e.seller;
    }
  }

  lemma SellerCountsMembers(stats: map<string, SellerAgg>, keys: seq<string>)
    requires forall k :: k in keys ==> k in stats
    ensures forall e :: e in SellerCounts(stats, keys) <==> e.seller in keys && e.count == stats[e.seller].count
  {
    var es := SellerCounts(stats, keys);
    forall e: SellerCount | e.seller in keys && e.count == stats[e.seller].count ensures e in es {
      var j :| 0 <= j < |keys| && keys[j] == e.seller;
      assert es[j] == e;
    }
  }

  lemma SellerTotalsMembers(stats: map<string, SellerAgg>, keys: seq<string>)
    requires forall k :: k in keys ==> k in stats
    ensures forall e :: e in SellerTotals(stats, keys) <==> e.seller in keys && e.totalPrice == stats[e.seller].totalPrice
  {
    var es := SellerTotals(stats, keys);
    forall e: SellerTotal | e.seller in keys && e.totalPrice == stats[e.seller].totalPrice ensures e in es {
      var j :| 0 <= j < |keys| && keys[j] == e.seller;
      assert es[j] == e;
    }
  }

  /** At most ten sellers, ordered by non-increasing product count. */
  lemma TopSellersByProductsSorted(stats: map<string, SellerAgg>, keys: seq<string>)
    requires forall k :: k in keys ==> k in stats
    ensures |TopSellersByProducts(stats, keys)| == Min(10, |keys|)
    ensures SortedDesc(TopSellersByProducts(stats, keys), CountKey)
  {
    TopOfSorted(SellerCounts(stats, keys), CountKey, 10);
  }

  /** Every entry is a seller of the dictionary together with its own product count. */
  lemma TopSellersByProductsValues(stats: map<string, SellerAgg>, keys: seq<string>)
    requires forall k :: k in keys ==> k in stats
    ensures forall e :: e in TopSellersByProducts(stats, keys) ==> e.seller in keys && e.count == stats[e.seller].count
  {
    TopMembers(SellerCounts(stats, keys), CountKey, 10, TopSellersByProducts(stats, keys));
    SellerCountsMembers(stats, keys);
  }

  /** No seller left out has a larger product count than a seller kept. */
  lemma TopSellersByProductsDominates(stats: map<string, SellerAgg>, keys: seq<string>)
    requires forall k :: k in keys ==> k in stats
    ensures forall k, e ::
              k in keys && k !in CountedSellers(TopSellersByProducts(stats, keys)) && e in TopSellersByProducts(stats, keys)
              ==> stats[k].count <= e.count
  {
    var es := SellerCounts(stats, keys);
    var r := TopSellersByProducts(stats, keys);
    TopMembers(es, CountKey, 10, r);
    SellerCountsMembers(stats, keys);
    CountedSellersOf(r);
    forall k, e | k in keys && k !in CountedSellers(r) && e in r ensures stats[k].count <= e.count {
      var x := SellerCount(k, stats[k].count);
      assert x in es;
      assert CountKey(x) <= CountKey(e);
    }
  }

  /** At most ten sellers, ordered by non-increasing total price. */
  lemma TopSellersByTotalPriceSorted(stats: map<string, SellerAgg>, keys: seq<string>)
    requires forall k :: k in keys ==> k in stats
    ensures |TopSellersByTotalPrice(stats, keys)| == Min(10, |keys|)
    ensures SortedDesc(TopSellersByTotalPrice(stats, keys), TotalKey)
  {
    TopOfSorted(SellerTotals(stats, keys), TotalKey, 10);
  }

  /** Every entry is a seller of the dictionary together with its own total price. */
  lemma TopSellersByTotalPriceValues(stats: map<string, SellerAgg>, keys: seq<string>)
    requires forall k :: k in keys ==> k in stats
    ensures forall e :: e in TopSellersByTotalPrice(stats, keys) ==> e.seller in keys && e.totalPrice == stats[e.seller].totalPrice
  {
    TopMembers(SellerTotals(stats, keys), TotalKey, 10, TopSellersByTotalPrice(stats, keys));
    SellerTotalsMembers(stats, keys);
  }

  /** No seller left out has a larger total price than a seller kept. */
  lemma TopSellersByTotalPriceDominates(stats: map<string, SellerAgg>, keys: seq<string>)
    requires forall k :: k in keys ==> k in stats
    ensures forall k, e ::
              k in keys && k !in TotalledSellers(TopSellersByTotalPrice(stats, keys)) && e in TopSellersByTotalPrice(stats, keys)
              ==> stats[k].totalPrice <= e.totalPrice
  {
    var es := SellerTotals(stats, keys);
    var r := TopSellersByTotalPrice(stats, keys);
    TopMembers(es, TotalKey, 10, r);
    SellerTotalsMembers(stats, keys);
    TotalledSellersOf(r);
    forall k, e | k in keys && k !in TotalledSellers(r) && e in r ensures stats[k].totalPrice <= e.totalPrice {
      var x := SellerTotal(k, stats[k].totalPrice);
      assert x in es;
      assert TotalKey(x) <= TotalKey(e);
    }
  }

  // ---------------------------------------------------------------------
  // topPrices, pieData

  datatype PriceEntry = PriceEntry(title: string, price: real)

  /** A pie-chart slice `{ name, value }`. */
  datatype Slice = Slice(name: string, value: real)

  /** `title.slice(0, 15) + "..."`. */
  function ShortTitle(t: string): (r: string)
    ensures |r| == Min(15, |t|) + 3
    ensures r[..|r| - 3] <= t && r[|r| - 3..] == "..."
    ensures |t| <= 15 ==> r[..|r| - 3] == t
  {
    t[..Min(15, |t|)] + "..."
  }

  function PriceKey(e: PriceEntry): real { e.price }

  function PriceEntries(ps: seq<Product>): seq<PriceEntry> {
    seq(|ps|, i requires 0 <= i < |ps| => PriceEntry(ShortTitle(ps[i].title), PriceOf(ps[i])))
  }

  function TopPrices(ps: seq<Product>): seq<PriceEntry> {
    Top(SortDesc(PriceEntries(ps), PriceKey), 10)
  }

  /**
   * At most ten entries, non-increasing by price, each one some product's
   * shortened title and price, and no product left out costs more than an
   * entry kept.
   */
  lemma TopPricesRanked(ps: seq<Product>)
    ensures |TopPrices(ps)| == Min(10, |ps|)
    ensures SortedDesc(TopPrices(ps), PriceKey)
    ensures multiset(TopPrices(ps)) <= multiset(PriceEntries(ps))
    ensures forall e :: e in TopPrices(ps) ==>
              exists j :: 0 <= j < |ps| && e == PriceEntry(ShortTitle(ps[j].title), PriceOf(ps[j]))
    ensures forall j, e :: 0 <= j < |ps| && PriceEntries(ps)[j] !in TopPrices(ps) && e in TopPrices(ps)
              ==> PriceOf(ps[j]) <= e.price
  {
    var es := PriceEntries(ps);
    var r := TopPrices(ps);
    TopOfSorted(es, PriceKey, 10);
    TopMembers(es, PriceKey, 10, r);
    forall e | e in r ensures exists j :: 0 <= j < |ps| && e == PriceEntry(ShortTitle(ps[j].title), PriceOf(ps[j])) {
      var j :| 0 <= j < |es| && es[j] == e;
    }
    forall j, e | 0 <= j < |ps| && es[j] !in r && e in r ensures PriceOf(ps[j]) <= e.price {
      assert es[j] in es;
      assert PriceKey(es[j]) <= PriceKey(e);
    }
  }

  /** `topPrices.map(p => ({ name: p.title, value: p.price }))`. */
  function PieData(top: seq<PriceEntry>): (r: seq<Slice>)
    ensures |r| == |top|
    ensures forall i :: 0 <= i < |r| ==> r[i].name == top[i].title && r[i].value == top[i].price
  {
    seq(|top|, i requires 0 <= i < |top| => Slice(top[i].title, top[i].price))
  }

  // ---------------------------------------------------------------------
  // ratingStats

  datatype RatingKey = Bucket(floor: int) | Unknown

  /** `product.rating ? Math.floor(product.rating) : "Unknown"`. */
  function RatingKeyOf(p: Product): (k: RatingKey)
    ensures k.Unknown? <==> p.rating.None? || p.rating.value == 0.0
    ensures k.Bucket? ==> k.floor as real <= p.rating.value < k.floor as real + 1.0
  {
    if p.rating.Some? && p.rating.value != 0.0 then Bucket(p.rating.value.Floor) else Unknown
  }

  function RatingKeys(ps: seq<Product>): seq<RatingKey> {
    seq(|ps|, i requires 0 <= i < |ps| => RatingKeyOf(ps[i]))
  }

  /** The `ratingStats` reducer: one counter per rating bucket. */
  method ComputeRatingStats(ps: seq<Product>) returns (stats: map<RatingKey, nat>)
    ensures stats == Tally(RatingKeys(ps))
  {
    stats := map[];
    var i := 0;
    while i < |ps|
      invariant 0 <= i <= |ps|
      invariant stats == Tally(RatingKeys(ps[..i]))
    {
      var k := RatingKeyOf(ps[i]);
      var ks := RatingKeys(ps[..i + 1]);
      assert ks[..|ks| - 1] == RatingKeys(ps[..i]);
      stats := stats[k := (if k in stats then stats[k] else 0) + 1];
      i := i + 1;
    }
    assert ps[..i] == ps;
  }

  /** Each bucket counts the products whose rating falls in it, and the buckets add up to the number of products. */
  lemma RatingStatsTotal(ps: seq<Product>)
    ensures forall k :: Get(Tally(RatingKeys(ps)), k) == multiset(RatingKeys(ps))[k]
    ensures SumOf(Distinct(RatingKeys(ps)), Tally(RatingKeys(ps))) == |ps|
  {
    TallySpec(RatingKeys(ps));
    TallyTotal(RatingKeys(ps));
  }

  // ---------------------------------------------------------------------
  // deliveryStats, deliveryPieData

  /** `product.delivery && product.delivery.toLowerCase().includes("free")`. */
  predicate IsFree(p: Product) {
    p.delivery.Some? && p.delivery.value != "" && Includes(Lower(p.delivery.value), "free")
  }

  /** The `deliveryStats` reducer: free and paid counters. */
  method ComputeDeliveryStats(ps: seq<Product>) returns (free: nat, paid: nat)
    ensures free == |Filter(ps, IsFree)|
    ensures free + paid == |ps|
  {
    free, paid := 0, 0;
    var i := 0;
    while i < |ps|
      invariant 0 <= i <= |ps|
      invariant free == |Filter(ps[..i], IsFree)|
      invariant free + paid == i
    {
      assert ps[..i + 1] == ps[..i] + [ps[i]];
      FilterSnoc(ps[..i], ps[i], IsFree);
      if IsFree(ps[i]) {
        free := free + 1;
      } else {
        paid := paid + 1;
      }
      i := i + 1;
    }
    assert ps[..i] == ps;
  }

  /**
   * The products counted as free are exactly those whose lower-cased delivery
   * text has "free" at some position, each as often as it is listed.
   */
  lemma FreeProducts(ps: seq<Product>)
    ensures forall p :: multiset(Filter(ps, IsFree))[p] == if IsFree(p) then multiset(ps)[p] else 0
    ensures forall p :: IsFree(p) <==>
              p.delivery.Some? && exists i :: 0 <= i <= |p.delivery.value| && "free" <= Lower(p.delivery.value)[i..]
  {
    FilterCounts(ps, IsFree);
    forall p: Product | p.delivery.Some? ensures IsFree(p) <==>
        exists i :: 0 <= i <= |p.delivery.value| && "free" <= Lower(p.delivery.value)[i..]
    {
      IncludesAt(Lower(p.delivery.value), "free");
    }
  }

  /** The two delivery slices, Free before Paid. */
  function DeliveryPieData(free: nat, paid: nat): (r: seq<Slice>)
    ensures |r| == 2
    ensures r[0].name == "Free Delivery" && r[1].name == "Paid Delivery"
    ensures r[0].value == free as real && r[0].value + r[1].value == (free + paid) as real
  {
    [Slice("Free Delivery", free as real), Slice("Paid Delivery", paid as real)]
  }
}
