/**
 * The hybrid recommender: the segment router, the new-user mix of best
 * sellers and trending products, the rank-normalised weighted blend of the
 * component recommenders for established users, the two-pass category and
 * price-band diversity filter, and the per-segment weight table.
 * The component recommenders, the analytics lists and the cold-start list
 * are inputs (`Sources`): they are computed elsewhere in the engine.
 */
module Hybrid {
  import opened Common
  import opened Ranking
  import Models
  import CartRecommender

  type Product = Models.Product

  // ---------------------------------------------------------------------
  // Segments

  const NewUser := "new_user"
  const MinimalData := "minimal_data"
  const EstablishedUser := "established_user"

  /** `_determine_user_segment` on the user's interaction and order counts. */
  function DetermineUserSegment(interactionCount: nat, orderCount: nat): (s: string)
    ensures s == NewUser <==> interactionCount < 5
    ensures s == EstablishedUser <==> interactionCount >= 20 && orderCount >= 2
    ensures s == MinimalData <==> 5 <= interactionCount && (interactionCount < 20 || orderCount < 2)
  {
    if interactionCount < 5 then NewUser
    else if interactionCount < 20 || orderCount < 2 then MinimalData
    else EstablishedUser
  }

  /** How much is known about a user: 0 new, 1 minimal data, 2 established. */
  function SegmentRank(s: string): nat {
    if s == NewUser then 0 else if s == MinimalData then 1 else 2
  }

  /** More interactions and more orders never move a user to an earlier segment. */
  lemma SegmentMonotone(i1: nat, o1: nat, i2: nat, o2: nat)
    requires i1 <= i2 && o1 <= o2
    ensures SegmentRank(DetermineUserSegment(i1, o1)) <= SegmentRank(DetermineUserSegment(i2, o2))
  {
  }

  // ---------------------------------------------------------------------
  // Price bands and the stock filter

  datatype PriceRange = Budget | Mid | Premium | Luxury

  /** `_get_price_range`: bands cut at 50, 150 and 300. */
  function GetPriceRange(price: real): (r: PriceRange)
    ensures r == Budget <==> price < 50.0
    ensures r == Mid <==> 50.0 <= price < 150.0
    ensures r == Premium <==> 150.0 <= price < 300.0
    ensures r == Luxury <==> 300.0 <= price
  {
    if price < 50.0 then Budget
    else if price < 150.0 then Mid
    else if price < 300.0 then Premium
    else Luxury
  }

  function BandIndex(r: PriceRange): nat {
    match r
    case Budget => 0
    case Mid => 1
    case Premium => 2
    case Luxury => 3
  }

  /** A dearer product never falls in a cheaper band. */
  lemma PriceRangeMonotone(a: real, b: real)
    requires a <= b
    ensures BandIndex(GetPriceRange(a)) <= BandIndex(GetPriceRange(b))
  {
  }

  /** `Product.query.filter(Product.stock_quantity > 0)`, in catalogue order. */
  function InStock(products: seq<Product>): (r: seq<Product>)
    ensures |r| <= |products|
  {
    if products == [] then []
    else
      var p := products[|products| - 1];
      InStock(products[..|products| - 1]) + (if p.stockQuantity > 0 then [p] else [])
  }

  /** The candidates are exactly the catalogue's products with stock left. */
  lemma {:induction false} InStockMembers(products: seq<Product>)
    ensures forall p :: p in InStock(products) <==> p in products && p.stockQuantity > 0
  {
    if products != [] {
      var init := products[..|products| - 1];
      InStockMembers(init);
      assert products == init + [products[|products| - 1]];
    }
  }

  // ---------------------------------------------------------------------
  // Inputs computed elsewhere in the engine

  /**
   * The lists the router combines: `bestSellers(n)` and `trending(n)` are the
   * analytics lists for a requested length, `coldStart` the minimal-data
   * list, `svm` and `neighbors` the personalised recommenders on the
   * candidates and a length (the SVM one can raise, as
   * `Preference.GetRecommendations` does when its fit fails), `recentPurchases` the product ids bought in the
   * last 30 days, and `cart` the cart recommender on those ids.
   */
  datatype Sources = Sources(
    bestSellers: int -> seq<Product>,
    trending: int -> seq<Product>,
    coldStart: seq<Product>,
    svm: (seq<Product>, nat) -> Result<seq<Product>>,
    neighbors: (seq<Product>, nat) -> seq<Product>,
    recentPurchases: seq<int>,
    cart: (seq<int>, seq<Product>, nat) -> seq<Product>)

  // ---------------------------------------------------------------------
  // Weights

  type Weights = map<string, real>

  function DefaultWeights(): (w: map<string, Weights>)
    ensures w.Keys == {NewUser, MinimalData, EstablishedUser}
  {
    map[
      NewUser := map["best_sellers" := 0.5, "trending" := 0.5],
      MinimalData := map["cold_start" := 1.0],
      EstablishedUser := map["linear_svm" := 0.3, "neighbors" := 0.3, "shopping_cart" := 0.2, "best_sellers" := 0.2]]
  }

  /** A Python dict literal: a sequence of (key, value) pairs with distinct keys. */
  predicate IsDict(items: seq<(string, real)>) {
    forall i, j :: 0 <= i < j < |items| ==> items[i].0 != items[j].0
  }

  function Values(items: seq<(string, real)>): (r: seq<real>)
    ensures |r| == |items|
  {
    seq(|items|, i requires 0 <= i < |items| => items[i].1)
  }

  function ToMap(items: seq<(string, real)>): map<string, real> {
    if items == [] then map[]
    else ToMap(items[..|items| - 1])[items[|items| - 1].0 := items[|items| - 1].1]
  }

  lemma {:induction false} ToMapLookup(items: seq<(string, real)>)
    requires IsDict(items)
    ensures forall k :: k in ToMap(items) <==> exists i :: 0 <= i < |items| && items[i].0 == k
    ensures forall i :: 0 <= i < |items| ==> ToMap(items)[items[i].0] == items[i].1
  {
    if items != [] {
      ToMapLookup(items[..|items| - 1]);
    }
  }

  /** `{k: v / total for k, v in items}` with `total = sum(values)`. */
  function Normalised(items: seq<(string, real)>): map<string, real>
    requires items == [] || SumReals(Values(items)) != 0.0
  {
    if items == [] then map[]
    else map k | k in ToMap(items) :: ToMap(items)[k] / SumReals(Values(items))
  }

  /** Each key keeps its weight's share of the total, and no other key appears. */
  lemma NormalisedShares(items: seq<(string, real)>)
    requires IsDict(items) && items != [] && SumReals(Values(items)) != 0.0
    ensures forall i :: 0 <= i < |items| ==>
      items[i].0 in Normalised(items) &&
      Normalised(items)[items[i].0] == items[i].1 / SumReals(Values(items))
    ensures forall k :: k in Normalised(items) ==> exists i :: 0 <= i < |items| && items[i].0 == k
  {
    ToMapLookup(items);
  }

  /** The normalised weights, in the input's order, sum to 1. */
  lemma NormalisedTotal(items: seq<(string, real)>)
    requires IsDict(items) && items != [] && SumReals(Values(items)) != 0.0
    ensures forall i :: 0 <= i < |items| ==>
      items[i].0 in Normalised(items) && Rescaled(items)[i] == (items[i].0, Normalised(items)[items[i].0])
    ensures SumReals(Values(Rescaled(items))) == 1.0
  {
    var t := SumReals(Values(items));
    var r := Rescaled(items);
    NormalisedShares(items);
    forall i | 0 <= i < |items|
      ensures items[i].0 in Normalised(items) && r[i] == (items[i].0, Normalised(items)[items[i].0])
    {
      assert r[i] == (items[i].0, items[i].1 / t);
    }
    RescaledTotal(items);
  }

  lemma RescaledTotal(items: seq<(string, real)>)
    requires items != [] && SumReals(Values(items)) != 0.0
    ensures SumReals(Values(Rescaled(items))) == 1.0
  {
    var t := SumReals(Values(items));
    var k := |items|;
    var v := Values(items);
    var u := Values(Rescaled(items));
    RescaledSum(items, t, k);
    assert v[..k] == v;
    assert u[..k] == u;
    assert SumReals(u) == t / t;
    SelfDivide(t);
  }

  lemma SelfDivide(t: real)
    requires t != 0.0
    ensures t / t == 1.0
  {
  }

  /** The normalised weights as (key, value) pairs in the input's order. */
  function Rescaled(items: seq<(string, real)>): (r: seq<(string, real)>)
    requires items == [] || SumReals(Values(items)) != 0.0
    ensures |r| == |items|
  {
    if items == [] then []
    else
      var t := SumReals(Values(items));
      seq(|items|, i requires 0 <= i < |items| => (items[i].0, items[i].1 / t))
  }

  lemma {:induction false} RescaledSum(items: seq<(string, real)>, t: real, k: nat)
    requires items != [] && t == SumReals(Values(items)) && t != 0.0 && k <= |items|
    ensures SumReals(Values(Rescaled(items))[..k]) == SumReals(Values(items)[..k]) / t
  {
    if k > 0 {
      RescaledSum(items, t, k - 1);
      assert Values(Rescaled(items))[..k][..k - 1] == Values(Rescaled(items))[..k - 1];
      assert Values(items)[..k][..k - 1] == Values(items)[..k - 1];
      DivideSum(SumReals(Values(items)[..k - 1]), items[k - 1].1, t);
    }
  }

  lemma DivideSum(a: real, b: real, t: real)
    requires t != 0.0
    ensures a / t + b / t == (a + b) / t
  {
  }

  /** The segment weights the router reads: each segment the router dispatches to has a table. */
  ghost predicate HasSegments(w: map<string, Weights>) {
    NewUser in w && MinimalData in w && EstablishedUser in w
  }

  /** The router with its weight table, the one piece of state it updates. */
  class HybridRecommender {
    var weights: map<string, Weights>

    ghost predicate Valid()
      reads this
    {
      HasSegments(weights)
    }

    constructor()
      ensures weights == DefaultWeights()
      ensures Valid()
    {
      weights := DefaultWeights();
    }

    /**
     * `update_weights`: an unknown segment is refused; otherwise the new
     * weights are normalised by their sum and replace the segment's table.
     * A non-empty table summing to zero raises ZeroDivisionError and leaves
     * the weights as they were.
     */
    method UpdateWeights(segment: string, newWeights: seq<(string, real)>) returns (r: Result<bool>)
      requires IsDict(newWeights)
      modifies this
      ensures segment !in old(weights) ==> r == Ok(false) && weights == old(weights)
      ensures segment in old(weights) && newWeights != [] && SumReals(Values(newWeights)) == 0.0 ==>
        r == Err(ZeroDivisionError) && weights == old(weights)
      ensures segment in old(weights) && (newWeights == [] || SumReals(Values(newWeights)) != 0.0) ==>
        r == Ok(true) && weights == old(weights)[segment := Normalised(newWeights)]
      ensures weights.Keys == old(weights).Keys
    {
      if segment !in weights {
        return Ok(false);
      }
      var total := 0.0;
      for i := 0 to |newWeights|
        invariant total == SumReals(Values(newWeights)[..i])
      {
        assert Values(newWeights)[..i + 1][..i] == Values(newWeights)[..i];
        total := total + newWeights[i].1;
      }
      assert Values(newWeights)[..|newWeights|] == Values(newWeights);
      if newWeights != [] && total == 0.0 {
        return Err(ZeroDivisionError);
      }
      weights := weights[segment := Normalised(newWeights)];
      r := Ok(true);
    }

    /** `get_algorithm_weights`: the segment a user falls in and its table. */
    function AlgorithmWeights(interactionCount: nat, orderCount: nat): (r: (string, Weights))
      reads this
      requires Valid()
      ensures r.0 == DetermineUserSegment(interactionCount, orderCount)
      ensures r.1 == weights[r.0]
    {
      var segment := DetermineUserSegment(interactionCount, orderCount);
      (segment, weights[segment])
    }

    /**
     * `get_recommendations`: the segment picks the path; the established
     * path blends the recommenders over the products in stock.
     */
    method GetRecommendations(interactionCount: nat, orderCount: nat, catalog: seq<Product>, src: Sources, limit: nat)
      returns (r: Result<seq<Product>>)
      requires Valid()
      ensures r == Recommend(weights, interactionCount, orderCount, catalog, src, limit)
    {
      var segment := DetermineUserSegment(interactionCount, orderCount);
      var candidates := InStock(catalog);
      if segment == NewUser {
        r := NewUserRecommendations(weights[NewUser], src, limit);
      } else if segment == MinimalData {
        r := Ok(src.coldStart);
      } else {
        r := EstablishedRecommendations(weights[EstablishedUser], candidates, src, limit);
      }
    }
  }

  /** What the router returns for a user with the given counts. */
  function Recommend(weights: map<string, Weights>, interactionCount: nat, orderCount: nat,
                     catalog: seq<Product>, src: Sources, limit: nat): Result<seq<Product>>
    requires HasSegments(weights)
  {
    var segment := DetermineUserSegment(interactionCount, orderCount);
    if segment == NewUser then NewUserRecommendations(weights[NewUser], src, limit)
    else if segment == MinimalData then Ok(src.coldStart)
    else Established(weights[EstablishedUser], InStock(catalog), src, limit)
  }

  /**
   * The router fails for a new user exactly without a best-seller weight,
   * never for a minimal-data user, and for an established user exactly when
   * a weight is missing or the SVM recommender raises, whose error then
   * comes out unchanged. With the default weights only the SVM can fail.
   */
  lemma RecommendErrors(weights: map<string, Weights>, interactionCount: nat, orderCount: nat,
                        catalog: seq<Product>, src: Sources, limit: nat)
    requires HasSegments(weights)
    ensures var segment := DetermineUserSegment(interactionCount, orderCount);
      var r := Recommend(weights, interactionCount, orderCount, catalog, src, limit);
      && (segment == NewUser ==> (r.Err? <==> "best_sellers" !in weights[NewUser]))
      && (segment == MinimalData ==> r.Ok?)
      && (segment == EstablishedUser ==>
            && (r.Err? <==> !Weighted(weights[EstablishedUser]) || SvmFails(weights[EstablishedUser], InStock(catalog), src, limit))
            && (SvmFails(weights[EstablishedUser], InStock(catalog), src, limit) ==>
                  r == Err(src.svm(InStock(catalog), 2 * limit).error)))
      && (weights == DefaultWeights() && segment == EstablishedUser ==>
            (r.Err? <==> src.svm(InStock(catalog), 2 * limit).Err?))
  {
  }

  // ---------------------------------------------------------------------
  // New users

  /**
   * `_get_new_user_recommendations`: `int(limit * w)` best sellers then the
   * rest as trending products, cut to `limit`. The shuffle is not modelled:
   * the result is the concatenation in order.
   */
  function NewUserRecommendations(w: Weights, src: Sources, limit: nat): (r: Result<seq<Product>>)
    ensures "best_sellers" !in w <==> r == Err(KeyError("best_sellers"))
    ensures r.Ok? ==> |r.value| == Min(limit, |src.bestSellers(NewUserSplit(w, limit))| + |src.trending(limit - NewUserSplit(w, limit))|)
  {
    if "best_sellers" !in w then Err(KeyError("best_sellers"))
    else
      var b := NewUserSplit(w, limit);
      Ok(Take(src.bestSellers(b) + src.trending(limit - b), limit))
  }

  /** How many best sellers a new user is shown. */
  function NewUserSplit(w: Weights, limit: nat): int
    requires "best_sellers" in w
  {
    Trunc(limit as real * w["best_sellers"])
  }

  /**
   * With the default even split, the best sellers get the rounded-down half
   * and the trending products the rest.
   */
  lemma NewUserSplitHalf(w: Weights, limit: nat)
    requires "best_sellers" in w && w["best_sellers"] == 0.5
    ensures NewUserSplit(w, limit) == limit / 2
    ensures limit - NewUserSplit(w, limit) == limit - limit / 2
  {
    var x := limit as real * 0.5;
    var h := limit / 2;
    assert limit == 2 * h || limit == 2 * h + 1;
    assert h as real <= x < h as real + 1.0;
  }

  /** A best-seller weight in [0, 1] asks for between 0 and `limit` of each list. */
  lemma NewUserSplitBounds(w: Weights, limit: nat)
    requires "best_sellers" in w && 0.0 <= w["best_sellers"] <= 1.0
    ensures 0 <= NewUserSplit(w, limit) <= limit
  {
    TruncScaled(limit, w["best_sellers"]);
  }

  lemma TruncScaled(n: nat, f: real)
    requires 0.0 <= f <= 1.0
    ensures 0 <= Trunc(n as real * f) <= n
  {
    var x := n as real * f;
    assert 0.0 <= x;
    assert n as real - x == n as real * (1.0 - f);
    assert x <= n as real;
    assert x.Floor as real <= x;
  }

  /**
   * Nothing is de-duplicated: when both lists fit, a product that is both a
   * best seller and trending is recommended twice.
   */
  lemma NewUserKeepsBoth(w: Weights, src: Sources, limit: nat)
    requires "best_sellers" in w
    ensures var bs := src.bestSellers(NewUserSplit(w, limit));
      var tr := src.trending(limit - NewUserSplit(w, limit));
      |bs| + |tr| <= limit ==>
        NewUserRecommendations(w, src, limit) == Ok(bs + tr) &&
        forall p :: multiset(NewUserRecommendations(w, src, limit).value)[p] == multiset(bs)[p] + multiset(tr)[p]
  {
    var bs := src.bestSellers(NewUserSplit(w, limit));
    var tr := src.trending(limit - NewUserSplit(w, limit));
    TakeGrow(bs, tr, limit);
  }

  // ---------------------------------------------------------------------
  // Established users: the blend

  /** The algorithms of the established path, in the order they are consulted. */
  const Algorithms: seq<string> := ["linear_svm", "neighbors", "shopping_cart", "best_sellers"]

  /** A component's name and its ranked list. */
  type Component = (string, seq<Product>)

  /** The names of the components are distinct algorithms. */
  predicate Named(comps: seq<Component>) {
    (forall i :: 0 <= i < |comps| ==> comps[i].0 in Algorithms) &&
    (forall i, j :: 0 <= i < j < |comps| ==> comps[i].0 != comps[j].0)
  }

  /**
   * The lists the established path blends: each algorithm in turn, if its
   * weight is positive, asked for `2 * limit` products; the cart only when
   * the user bought something recently. Reading a weight that is not in the
   * table raises KeyError, in the order the algorithms are consulted; the
   * SVM recommender's error propagates, and since it is asked right after
   * its own weight is read, it comes before a KeyError for a later weight.
   */
  function Components(w: Weights, candidates: seq<Product>, src: Sources, limit: nat): (r: Result<seq<Component>>)
    ensures r.Err? <==> !Weighted(w) || SvmFails(w, candidates, src, limit)
    ensures "linear_svm" !in w ==> r == Err(KeyError("linear_svm"))
    ensures SvmFails(w, candidates, src, limit) ==> r == Err(src.svm(candidates, 2 * limit).error)
    ensures r.Err? && !SvmFails(w, candidates, src, limit) ==> r.error == KeyError(FirstMissing(w))
  {
    if "linear_svm" !in w then Err(KeyError("linear_svm"))
    else if w["linear_svm"] > 0.0 && src.svm(candidates, 2 * limit).Err? then Err(src.svm(candidates, 2 * limit).error)
    else if "neighbors" !in w then Err(KeyError("neighbors"))
    else if "shopping_cart" !in w then Err(KeyError("shopping_cart"))
    else if "best_sellers" !in w then Err(KeyError("best_sellers"))
    else Ok(Select(w, candidates, src, 2 * limit, Algorithms))
  }

  /** The SVM recommender is asked for `2 * limit` products and raises. */
  predicate SvmFails(w: Weights, candidates: seq<Product>, src: Sources, limit: nat) {
    "linear_svm" in w && w["linear_svm"] > 0.0 && src.svm(candidates, 2 * limit).Err?
  }

  /** The table has a weight for every algorithm of the established path. */
  predicate Weighted(w: Weights) {
    forall a :: a in Algorithms ==> a in w
  }

  /** An algorithm takes part: its weight is positive, and for the cart there are recent purchases. */
  predicate Active(w: Weights, src: Sources, a: string)
    requires a in w
  {
    w[a] > 0.0 && (a == "shopping_cart" ==> src.recentPurchases != [])
  }

  /**
   * The list an algorithm contributes, `n` products long at most. A failing
   * SVM recommender has already stopped `Components`, so its error case
   * never reaches a component.
   */
  function ListFor(a: string, candidates: seq<Product>, src: Sources, n: nat): seq<Product> {
    if a == "linear_svm" then (match src.svm(candidates, n) case Ok(l) => l case Err(_) => [])
    else if a == "neighbors" then src.neighbors(candidates, n)
    else if a == "shopping_cart" then src.cart(src.recentPurchases, candidates, n)
    else src.bestSellers(n)
  }

  /** The active algorithms among `algos`, in order, with their lists. */
  function Select(w: Weights, candidates: seq<Product>, src: Sources, n: nat, algos: seq<string>): seq<Component>
    requires forall a :: a in algos ==> a in w
  {
    if algos == [] then []
    else
      var a := algos[|algos| - 1];
      Select(w, candidates, src, n, algos[..|algos| - 1]) +
      (if Active(w, src, a) then [(a, ListFor(a, candidates, src, n))] else [])
  }

  lemma {:induction false} SelectFacts(w: Weights, candidates: seq<Product>, src: Sources, n: nat, algos: seq<string>)
    requires Distinct(algos) && forall a :: a in algos ==> a in w
    ensures var r := Select(w, candidates, src, n, algos);
      && (forall i :: 0 <= i < |r| ==>
            r[i].0 in algos && Active(w, src, r[i].0) && r[i].1 == ListFor(r[i].0, candidates, src, n))
      && (forall i, j :: 0 <= i < j < |r| ==> r[i].0 != r[j].0)
      && (forall a :: a in algos && Active(w, src, a) ==> (a, ListFor(a, candidates, src, n)) in r)
  {
    if algos != [] {
      var init := algos[..|algos| - 1];
      DistinctInit(algos);
      assert forall a :: a in algos ==> a in init || a == algos[|algos| - 1];
      SelectFacts(w, candidates, src, n, init);
      var a := algos[|algos| - 1];
      var prev := Select(w, candidates, src, n, init);
      var r := Select(w, candidates, src, n, algos);
      assert forall b :: b in init ==> b in algos;
      if Active(w, src, a) {
        assert r == prev + [(a, ListFor(a, candidates, src, n))];
        forall i | 0 <= i < |prev| ensures r[i] == prev[i] && r[i].0 != a {
        }
      }
    }
  }

  /**
   * The components are distinct algorithms with positive weights, each with
   * its own list; every algorithm with a positive weight contributes (the
   * cart only after recent purchases).
   */
  lemma ComponentsActive(w: Weights, candidates: seq<Product>, src: Sources, limit: nat)
    requires Components(w, candidates, src, limit).Ok?
    ensures var comps := Components(w, candidates, src, limit).value;
      && Named(comps)
      && (forall i :: 0 <= i < |comps| ==>
            w[comps[i].0] > 0.0 && comps[i].1 == ListFor(comps[i].0, candidates, src, 2 * limit))
      && (forall a :: a in Algorithms && w[a] > 0.0 && (a == "shopping_cart" ==> src.recentPurchases != []) ==>
            (a, ListFor(a, candidates, src, 2 * limit)) in comps)
  {
    assert Distinct(Algorithms);
    assert Components(w, candidates, src, limit).value == Select(w, candidates, src, 2 * limit, Algorithms);
    SelectFacts(w, candidates, src, 2 * limit, Algorithms);
  }

  /** The first algorithm, in consultation order, without a weight. */
  function FirstMissing(w: Weights): string {
    if "linear_svm" !in w then "linear_svm"
    else if "neighbors" !in w then "neighbors"
    else if "shopping_cart" !in w then "shopping_cart"
    else "best_sellers"
  }

  /** `1.0 - i / n`: the score of rank i in a list of n. */
  function RankScore(i: nat, n: nat): real
    requires i < n
  {
    1.0 - i as real / n as real
  }

  /** The top of a list scores 1, every rank scores above 0, and a later rank scores less. */
  lemma RankScoreBounds(i: nat, j: nat, n: nat)
    requires i < n && j < n
    ensures 0.0 < RankScore(i, n) <= 1.0
    ensures RankScore(0, n) == 1.0
    ensures i < j ==> RankScore(j, n) < RankScore(i, n)
  {
    assert i as real / n as real < 1.0;
    if i < j {
      assert i as real / n as real < j as real / n as real;
    }
  }

  /** A product of the blend: the first copy of it seen, and its score per algorithm. */
  datatype Entry = Entry(product: Product, scores: map<string, real>)

  /** `all_recommendations`: the product ids in insertion order, and their entries. */
  datatype Pool = Pool(order: seq<int>, entries: map<int, Entry>)

  const EmptyPool := Pool([], map[])

  /** The pool's order lists each id once, exactly the ids with an entry, each entry under its product's id. */
  ghost predicate Wf(pool: Pool) {
    Distinct(pool.order) &&
    (forall id :: id in pool.entries <==> id in pool.order) &&
    (forall id :: id in pool.entries ==> pool.entries[id].product.id == id)
  }

  /** One product of one list: create its entry if new, then record its score for the algorithm. */
  function Visit(pool: Pool, algo: string, p: Product, score: real): Pool {
    if p.id in pool.entries then
      var e := pool.entries[p.id];
      Pool(pool.order, pool.entries[p.id := e.(scores := e.scores[algo := score])])
    else
      Pool(pool.order + [p.id], pool.entries[p.id := Entry(p, map[algo := score])])
  }

  /** The pool after the first k products of one algorithm's list. */
  function Gather(pool: Pool, algo: string, recs: seq<Product>, k: nat): Pool
    requires k <= |recs|
  {
    if k == 0 then pool
    else Visit(Gather(pool, algo, recs, k - 1), algo, recs[k - 1], RankScore(k - 1, |recs|))
  }

  /** The pool after all the components' lists, in order. */
  function GatherAll(comps: seq<Component>): Pool {
    if comps == [] then EmptyPool
    else
      var c := comps[|comps| - 1];
      Gather(GatherAll(comps[..|comps| - 1]), c.0, c.1, |c.1|)
  }

  lemma VisitWf(pool: Pool, algo: string, p: Product, score: real)
    requires Wf(pool)
    ensures Wf(Visit(pool, algo, p, score))
    ensures Visit(pool, algo, p, score).order == pool.order + (if p.id in pool.order then [] else [p.id])
  {
    DistinctSnoc(pool.order, p.id);
  }

  lemma {:induction false} GatherWf(pool: Pool, algo: string, recs: seq<Product>, k: nat)
    requires k <= |recs| && Wf(pool)
    ensures Wf(Gather(pool, algo, recs, k))
  {
    if k > 0 {
      GatherWf(pool, algo, recs, k - 1);
      VisitWf(Gather(pool, algo, recs, k - 1), algo, recs[k - 1], RankScore(k - 1, |recs|));
    }
  }

  lemma {:induction false} GatherAllWf(comps: seq<Component>)
    ensures Wf(GatherAll(comps))
  {
    if comps != [] {
      var c := comps[|comps| - 1];
      GatherAllWf(comps[..|comps| - 1]);
      GatherWf(GatherAll(comps[..|comps| - 1]), c.0, c.1, |c.1|);
    }
  }

  /** The last position before k where a product with this id is listed. */
  function LastIndex(recs: seq<Product>, k: nat, id: int): (r: Option<nat>)
    requires k <= |recs|
    ensures r.Some? ==> r.value < k && recs[r.value].id == id
    ensures r.Some? ==> forall j :: r.value < j < k ==> recs[j].id != id
    ensures r.None? <==> forall j :: 0 <= j < k ==> recs[j].id != id
  {
    if k == 0 then None
    else if recs[k - 1].id == id then Some(k - 1)
    else LastIndex(recs, k - 1, id)
  }

  /** The scores recorded for an id, none if it has no entry. */
  function ScoresOf(pool: Pool, id: int): map<string, real> {
    if id in pool.entries then pool.entries[id].scores else map[]
  }

  /** The score an algorithm's list gives an id: the rank of its last listing, if listed. */
  function Record(scores: map<string, real>, algo: string, recs: seq<Product>, id: int): map<string, real> {
    match LastIndex(recs, |recs|, id)
    case Some(i) => scores[algo := RankScore(i, |recs|)]
    case None => scores
  }

  /** The scores an id collects from a sequence of components. */
  function ScoresFor(comps: seq<Component>, id: int): map<string, real> {
    if comps == [] then map[]
    else
      var c := comps[|comps| - 1];
      Record(ScoresFor(comps[..|comps| - 1], id), c.0, c.1, id)
  }

  /**
   * Gathering one list records, for every id, the rank score of the id's
   * last listing (a later listing overwrites an earlier one), and creates
   * entries only for listed ids.
   */
  lemma {:induction false} GatherScores(pool: Pool, algo: string, recs: seq<Product>, k: nat, id: int)
    requires k <= |recs|
    ensures id in Gather(pool, algo, recs, k).entries <==> id in pool.entries || LastIndex(recs, k, id).Some?
    ensures ScoresOf(Gather(pool, algo, recs, k), id) ==
      match LastIndex(recs, k, id)
      case Some(i) => ScoresOf(pool, id)[algo := RankScore(i, |recs|)]
      case None => ScoresOf(pool, id)
  {
    if k > 0 {
      GatherScores(pool, algo, recs, k - 1, id);
    }
  }

  /** The pool's entry for an id holds exactly the scores the components give it. */
  lemma {:induction false} GatherAllScores(comps: seq<Component>, id: int)
    ensures id in GatherAll(comps).entries <==> exists j :: 0 <= j < |comps| && Listed(comps[j], id)
    ensures ScoresOf(GatherAll(comps), id) == ScoresFor(comps, id)
  {
    if comps != [] {
      var init := comps[..|comps| - 1];
      var c := comps[|comps| - 1];
      GatherAllScores(init, id);
      GatherScores(GatherAll(init), c.0, c.1, |c.1|, id);
      assert forall j :: 0 <= j < |init| ==> init[j] == comps[j];
    }
  }

  /** An id's scores name exactly the components that list it. */
  lemma {:induction false} ScoresForKeys(comps: seq<Component>, id: int)
    ensures forall a :: a in ScoresFor(comps, id) <==>
      exists j :: 0 <= j < |comps| && comps[j].0 == a && Listed(comps[j], id)
  {
    if comps != [] {
      var init := comps[..|comps| - 1];
      ScoresForKeys(init, id);
      assert forall j :: 0 <= j < |init| ==> init[j] == comps[j];
    }
  }

  /** The component lists the id. */
  predicate Listed(c: Component, id: int) {
    LastIndex(c.1, |c.1|, id).Some?
  }

  /** The score an id gets from a component listing it: the rank score of its last listing there. */
  function ListedScore(c: Component, id: int): real
    requires Listed(c, id)
  {
    RankScore(LastIndex(c.1, |c.1|, id).value, |c.1|)
  }

  /** With distinct component names, each listing component's score is the rank score of its last listing. */
  lemma {:induction false} ScoresForValues(comps: seq<Component>, id: int)
    requires Named(comps)
    ensures forall j :: 0 <= j < |comps| && Listed(comps[j], id) ==>
      comps[j].0 in ScoresFor(comps, id) && ScoresFor(comps, id)[comps[j].0] == ListedScore(comps[j], id)
  {
    if comps != [] {
      var init := comps[..|comps| - 1];
      var c := comps[|comps| - 1];
      ScoresForValues(init, id);
      forall j | 0 <= j < |comps| && Listed(comps[j], id)
        ensures comps[j].0 in ScoresFor(comps, id) && ScoresFor(comps, id)[comps[j].0] == ListedScore(comps[j], id)
      {
        if j < |init| {
          assert init[j] == comps[j];
          assert comps[j].0 != c.0;
        }
      }
    }
  }


  /**
   * The weighted total of an entry: each recorded score times its
   * algorithm's weight (0 when the table has none), added in the order the
   * algorithms are consulted, which is the order the scores were recorded.
   */
  function Total(scores: map<string, real>, w: Weights): real {
    TotalOver(scores, w, Algorithms)
  }

  function TotalOver(scores: map<string, real>, w: Weights, algos: seq<string>): real {
    if algos == [] then 0.0
    else
      var a := algos[|algos| - 1];
      TotalOver(scores, w, algos[..|algos| - 1]) + (if a in scores then scores[a] * GetReal(w, a) else 0.0)
  }

  /** The entries in insertion order, each scored by its weighted total. */
  function Ranked(pool: Pool, w: Weights): seq<Scored<Product>>
    requires Wf(pool)
  {
    seq(|pool.order|, i requires 0 <= i < |pool.order| =>
      var id := pool.order[i];
      assert id in pool.order;
      Scored(Total(pool.entries[id].scores, w), pool.entries[id].product))
  }

  /**
   * `_get_established_user_recommendations`: the entries sorted by total,
   * highest first (ties in insertion order), then diversified.
   */
  function Established(w: Weights, candidates: seq<Product>, src: Sources, limit: nat): Result<seq<Product>> {
    match Components(w, candidates, src, limit)
    case Err(e) => Err(e)
    case Ok(comps) =>
      GatherAllWf(comps);
      Ok(Diversified(Items(SortDesc(Ranked(GatherAll(comps), w))), limit))
  }

  /** The established path as the router runs it, list by list and entry by entry. */
  method EstablishedRecommendations(w: Weights, candidates: seq<Product>, src: Sources, limit: nat)
    returns (r: Result<seq<Product>>)
    ensures r == Established(w, candidates, src, limit)
  {
    var components := Components(w, candidates, src, limit);
    if components.Err? {
      return Err(components.error);
    }
    var comps := components.value;
    var pool := EmptyPool;
    for c := 0 to |comps|
      invariant pool == GatherAll(comps[..c])
    {
      assert comps[..c + 1][..c] == comps[..c];
      pool := Collect(pool, comps[c].0, comps[c].1);
    }
    assert comps[..|comps|] == comps;
    GatherAllWf(comps);
    var scored := ScoreEntries(pool, w);
    var sorted := SortDesc(scored);
    var products := EnsureDiversity(Items(sorted), limit);
    r := Ok(products);
  }

  /** One algorithm's list: each product enters the pool with the score of its rank. */
  method Collect(pool: Pool, algo: string, recs: seq<Product>) returns (next: Pool)
    ensures next == Gather(pool, algo, recs, |recs|)
  {
    next := pool;
    for i := 0 to |recs|
      invariant next == Gather(pool, algo, recs, i)
    {
      var p := recs[i];
      var score := 1.0 - i as real / |recs| as real;
      if p.id in next.entries {
        var e := next.entries[p.id];
        next := Pool(next.order, next.entries[p.id := e.(scores := e.scores[algo := score])]);
      } else {
        next := Pool(next.order + [p.id], next.entries[p.id := Entry(p, map[algo := score])]);
      }
    }
  }

  /** The totals loop: every entry, in insertion order, with its weighted total. */
  method ScoreEntries(pool: Pool, w: Weights) returns (scored: seq<Scored<Product>>)
    requires Wf(pool)
    ensures scored == Ranked(pool, w)
  {
    scored := [];
    for i := 0 to |pool.order|
      invariant scored == Ranked(pool, w)[..i]
    {
      assert pool.order[i] in pool.order;
      var entry := pool.entries[pool.order[i]];
      var total := WeightedTotal(entry.scores, w);
      scored := scored + [Scored(total, entry.product)];
    }
  }

  method WeightedTotal(scores: map<string, real>, w: Weights) returns (total: real)
    ensures total == Total(scores, w)
  {
    total := 0.0;
    for k := 0 to |Algorithms|
      invariant total == TotalOver(scores, w, Algorithms[..k])
    {
      var a := Algorithms[k];
      assert Algorithms[..k + 1][..k] == Algorithms[..k];
      if a in scores {
        total := total + scores[a] * GetReal(w, a);
      }
    }
    assert Algorithms[..|Algorithms|] == Algorithms;
  }

  // ---------------------------------------------------------------------
  // Diversity

  function Ranges(s: seq<Product>): set<PriceRange> {
    set p | p in s :: GetPriceRange(p.price)
  }

  /** A product adds something new to a list: a category or a price band it lacks. */
  predicate Introduces(d: seq<Product>, p: Product) {
    p.category !in CartRecommender.Categories(d) || GetPriceRange(p.price) !in Ranges(d)
  }

  /** The first pass without its length bound: the products that introduce something, in order. */
  function Novel(s: seq<Product>): seq<Product> {
    if s == [] then []
    else
      var d := Novel(s[..|s| - 1]);
      var p := s[|s| - 1];
      d + (if Introduces(d, p) then [p] else [])
  }

  /**
   * `_ensure_diversity`: a list that fits is returned as it is; otherwise
   * the first pass keeps, up to `limit`, the products that bring a new
   * category or price band, and the second fills the room left with the
   * other products in order.
   */
  function Diversified(products: seq<Product>, limit: nat): seq<Product> {
    if |products| <= limit then products
    else CartRecommender.Filled(products, Take(Novel(products), limit), limit)
  }

  method EnsureDiversity(products: seq<Product>, limit: nat) returns (diversified: seq<Product>)
    ensures diversified == Diversified(products, limit)
  {
    if |products| <= limit {
      return products;
    }
    var first := NovelPass(products, limit);
    diversified := CartRecommender.FillPass(products, first, limit);
  }

  /**
   * The first pass. Its early exit once `limit` products are kept is the
   * guard `|diversified| < limit`: after that point no product is added.
   */
  method NovelPass(products: seq<Product>, limit: nat) returns (diversified: seq<Product>)
    ensures diversified == Take(Novel(products), limit)
  {
    diversified := [];
    var categoriesSeen: set<Option<string>> := {};
    var rangesSeen: set<PriceRange> := {};
    for i := 0 to |products|
      invariant Scanned(products, i, diversified, categoriesSeen, rangesSeen, limit)
    {
      var p := products[i];
      var range := GetPriceRange(p.price);
      ScanStep(products, i, diversified, categoriesSeen, rangesSeen, limit);
      if |diversified| < limit && (p.category !in categoriesSeen || range !in rangesSeen) {
        diversified := diversified + [p];
        categoriesSeen := categoriesSeen + {p.category};
        rangesSeen := rangesSeen + {range};
      }
    }
    assert products[..|products|] == products;
  }

  /** The state of the first pass after the first `i` products. */
  ghost predicate Scanned(products: seq<Product>, i: nat, d: seq<Product>,
                          cats: set<Option<string>>, ranges: set<PriceRange>, limit: nat)
  {
    i <= |products| &&
    d == Take(Novel(products[..i]), limit) &&
    cats == CartRecommender.Categories(d) && ranges == Ranges(d) &&
    (|d| < limit ==> d == Novel(products[..i]))
  }

  lemma ScanStep(products: seq<Product>, i: nat, d: seq<Product>,
                 cats: set<Option<string>>, ranges: set<PriceRange>, limit: nat)
    requires i < |products| && Scanned(products, i, d, cats, ranges, limit)
    ensures var p := products[i];
      var grow := |d| < limit && (p.category !in cats || GetPriceRange(p.price) !in ranges);
      Scanned(products, i + 1, if grow then d + [p] else d,
              if grow then cats + {p.category} else cats,
              if grow then ranges + {GetPriceRange(p.price)} else ranges, limit)
  {
    var p := products[i];
    var novel := Novel(products[..i]);
    assert products[..i + 1][..i] == products[..i];
    assert Novel(products[..i + 1]) == novel + (if Introduces(novel, p) then [p] else []);
    if |d| < limit {
      if Introduces(novel, p) {
        TakeGrow(novel, [p], limit);
        assert CartRecommender.Categories(novel + [p]) == CartRecommender.Categories(novel) + {p.category};
        assert Ranges(novel + [p]) == Ranges(novel) + {GetPriceRange(p.price)};
      }
    } else {
      TakeGrow(novel, if Introduces(novel, p) then [p] else [], limit);
    }
  }

  /** The first pass keeps distinct products of the input. */
  lemma {:induction false} NovelMembers(s: seq<Product>)
    ensures forall p :: p in Novel(s) ==> p in s
    ensures Distinct(Novel(s))
  {
    if s != [] {
      var init := s[..|s| - 1];
      var d := Novel(init);
      var p := s[|s| - 1];
      NovelMembers(init);
      if Introduces(d, p) {
        assert p !in d;
        DistinctSnoc(d, p);
      }
    }
  }

  /** Each product the first pass keeps brings a category or price band the earlier ones lack. */
  lemma {:induction false} NovelIntroduces(s: seq<Product>)
    ensures forall i :: 0 <= i < |Novel(s)| ==> Introduces(Novel(s)[..i], Novel(s)[i])
  {
    if s != [] {
      var init := s[..|s| - 1];
      var d := Novel(init);
      NovelIntroduces(init);
      var n := Novel(s);
      forall i | 0 <= i < |n| ensures Introduces(n[..i], n[i]) {
        if i < |d| {
          assert n[..i] == d[..i] && n[i] == d[i];
        } else {
          assert n[..i] == d;
        }
      }
    }
  }

  /** A product the first pass skips has both its category and its price band among the kept ones. */
  lemma {:induction false} NovelSkips(s: seq<Product>)
    ensures forall p :: p in s && p !in Novel(s) ==> !Introduces(Novel(s), p)
  {
    if s != [] {
      var init := s[..|s| - 1];
      var d := Novel(init);
      var p := s[|s| - 1];
      NovelSkips(init);
      assert forall q :: q in s ==> q in init || q == p;
      NovelGrows(d, p);
    }
  }

  lemma NovelGrows(d: seq<Product>, p: Product)
    ensures var n := d + (if Introduces(d, p) then [p] else []);
      CartRecommender.Categories(d) <= CartRecommender.Categories(n) && Ranges(d) <= Ranges(n) &&
      !Introduces(n, p)
  {
  }

  /**
   * A list longer than `limit` comes out with `limit` distinct products of
   * its own (fewer only when it has fewer distinct products), the first
   * pass's choices first; a list that fits is returned unchanged.
   */
  lemma DiversifiedFacts(products: seq<Product>, limit: nat)
    ensures |products| <= limit ==> Diversified(products, limit) == products
    ensures |products| > limit ==>
      var r := Diversified(products, limit);
      && Distinct(r)
      && |r| == Min(limit, |Elems(products)|)
      && (forall p :: p in r ==> p in products)
      && Take(Novel(products), limit) <= r
  {
    if |products| > limit {
      var first := Take(Novel(products), limit);
      NovelMembers(products);
      assert Distinct(first) by {
        assert first == Novel(products)[..|first|];
      }
      CartRecommender.FilledDistinct(products, first, limit);
      CartRecommender.FilledLength(products, first, limit);
    }
  }

  /** On a duplicate-free list, the filter returns exactly `limit` products, or all of them. */
  lemma DiversifiedLength(products: seq<Product>, limit: nat)
    requires Distinct(products)
    ensures |Diversified(products, limit)| == Min(limit, |products|)
  {
    DiversifiedFacts(products, limit);
    DistinctCardinality(products);
  }

  /**
   * In the established blend, a product's entry exists exactly when some
   * active component lists it, and its scores name exactly the components
   * listing it, each with the rank score of its last listing there.
   */
  lemma BlendScores(w: Weights, candidates: seq<Product>, src: Sources, limit: nat, id: int)
    requires Components(w, candidates, src, limit).Ok?
    ensures var comps := Components(w, candidates, src, limit).value;
      var pool := GatherAll(comps);
      && (id in pool.entries <==> exists j :: 0 <= j < |comps| && Listed(comps[j], id))
      && (forall a :: a in ScoresOf(pool, id) <==>
            exists j :: 0 <= j < |comps| && comps[j].0 == a && Listed(comps[j], id))
      && (forall j :: 0 <= j < |comps| && Listed(comps[j], id) ==>
            comps[j].0 in ScoresOf(pool, id) && ScoresOf(pool, id)[comps[j].0] == ListedScore(comps[j], id))
  {
    var comps := Components(w, candidates, src, limit).value;
    ComponentsActive(w, candidates, src, limit);
    GatherAllScores(comps, id);
    ScoresForKeys(comps, id);
    ScoresForValues(comps, id);
  }

  /** Σ score × weight over the components that list the id. */
  function ComponentSum(comps: seq<Component>, id: int, w: Weights): real {
    if comps == [] then 0.0
    else
      var c := comps[|comps| - 1];
      ComponentSum(comps[..|comps| - 1], id, w) + (if Listed(c, id) then ListedScore(c, id) * GetReal(w, c.0) else 0.0)
  }

  /**
   * A blended product's total is the sum, over the components that list it,
   * of its rank score there times the component's weight.
   */
  lemma BlendTotal(w: Weights, candidates: seq<Product>, src: Sources, limit: nat, id: int)
    requires Components(w, candidates, src, limit).Ok?
    ensures var comps := Components(w, candidates, src, limit).value;
      Total(ScoresOf(GatherAll(comps), id), w) == ComponentSum(comps, id, w)
  {
    var comps := Components(w, candidates, src, limit).value;
    GatherAllScores(comps, id);
    assert Distinct(Algorithms);
    TotalSelect(w, candidates, src, 2 * limit, Algorithms, id);
  }

  lemma {:induction false} TotalSelect(w: Weights, candidates: seq<Product>, src: Sources, n: nat, algos: seq<string>, id: int)
    requires Distinct(algos) && forall a :: a in algos ==> a in w
    ensures var comps := Select(w, candidates, src, n, algos);
      TotalOver(ScoresFor(comps, id), w, algos) == ComponentSum(comps, id, w)
  {
    if algos != [] {
      var init := algos[..|algos| - 1];
      var a := algos[|algos| - 1];
      DistinctInit(algos);
      assert algos == init + [a];
      TotalSelect(w, candidates, src, n, init, id);
      var prev := Select(w, candidates, src, n, init);
      SelectNames(w, candidates, src, n, init, id);
      if Active(w, src, a) {
        var c := (a, ListFor(a, candidates, src, n));
        assert Select(w, candidates, src, n, algos) == prev + [c];
        AppendComponent(prev, c, init, w, id);
      } else {
        assert Select(w, candidates, src, n, algos) == prev;
        SkipAlgorithm(prev, a, init, w, id);
      }
    }
  }

  /** A component for a new algorithm adds its weighted score to the total. */
  lemma AppendComponent(prev: seq<Component>, c: Component, init: seq<string>, w: Weights, id: int)
    requires c.0 !in init
    requires forall b :: b in ScoresFor(prev, id) ==> b in init
    requires TotalOver(ScoresFor(prev, id), w, init) == ComponentSum(prev, id, w)
    ensures TotalOver(ScoresFor(prev + [c], id), w, init + [c.0]) == ComponentSum(prev + [c], id, w)
  {
    var comps := prev + [c];
    assert comps[..|comps| - 1] == prev;
    var m := ScoresFor(prev, id);
    var m' := ScoresFor(comps, id);
    assert m' == Record(m, c.0, c.1, id);
    TotalStep(m, m', w, init, c.0);
  }

  /** An algorithm that takes no part adds nothing to the total. */
  lemma SkipAlgorithm(prev: seq<Component>, a: string, init: seq<string>, w: Weights, id: int)
    requires a !in init
    requires forall b :: b in ScoresFor(prev, id) ==> b in init
    requires TotalOver(ScoresFor(prev, id), w, init) == ComponentSum(prev, id, w)
    ensures TotalOver(ScoresFor(prev, id), w, init + [a]) == ComponentSum(prev, id, w)
  {
    TotalStep(ScoresFor(prev, id), ScoresFor(prev, id), w, init, a);
  }

  /** The scores a selection gives an id name only algorithms of the selection. */
  lemma SelectNames(w: Weights, candidates: seq<Product>, src: Sources, n: nat, algos: seq<string>, id: int)
    requires Distinct(algos) && forall a :: a in algos ==> a in w
    ensures forall a :: a in ScoresFor(Select(w, candidates, src, n, algos), id) ==> a in algos
  {
    SelectFacts(w, candidates, src, n, algos);
    ScoresForKeys(Select(w, candidates, src, n, algos), id);
  }

  /** Adding one algorithm, whose score only it can have changed, adds its term. */
  lemma TotalStep(m: map<string, real>, m': map<string, real>, w: Weights, algos: seq<string>, a: string)
    requires a !in algos && a !in m
    requires forall b :: b != a ==> (b in m <==> b in m') && (b in m ==> m[b] == m'[b])
    ensures TotalOver(m', w, algos + [a]) ==
      TotalOver(m, w, algos) + (if a in m' then m'[a] * GetReal(w, a) else 0.0)
  {
    assert (algos + [a])[..|algos|] == algos;
    TotalOverFrame(m, m', w, algos);
  }

  /** The weighted total over some algorithms reads only their scores. */
  lemma {:induction false} TotalOverFrame(m1: map<string, real>, m2: map<string, real>, w: Weights, algos: seq<string>)
    requires forall a :: a in algos ==> (a in m1 <==> a in m2) && (a in m1 ==> m1[a] == m2[a])
    ensures TotalOver(m1, w, algos) == TotalOver(m2, w, algos)
  {
    if algos != [] {
      TotalOverFrame(m1, m2, w, algos[..|algos| - 1]);
    }
  }

  /** An entry's weighted total, as the sort sees it. */
  function BlendedTotal(pool: Pool, w: Weights, p: Product): real {
    Total(ScoresOf(pool, p.id), w)
  }

  /** The entries' products are distinct, one per id of the pool. */
  lemma RankedItems(pool: Pool, w: Weights)
    requires Wf(pool)
    ensures Distinct(Items(Ranked(pool, w)))
    ensures forall i :: 0 <= i < |Ranked(pool, w)| ==>
      Ranked(pool, w)[i].score == BlendedTotal(pool, w, Ranked(pool, w)[i].item)
    ensures forall p: Product :: p in Items(Ranked(pool, w)) <==> p.id in pool.entries && pool.entries[p.id].product == p
  {
    var ranked := Ranked(pool, w);
    var items := Items(ranked);
    forall i | 0 <= i < |ranked| ensures items[i].id == pool.order[i] && pool.order[i] in pool.entries {
      assert pool.order[i] in pool.order;
    }
    forall p: Product | p.id in pool.entries && pool.entries[p.id].product == p ensures p in items {
      var i :| 0 <= i < |pool.order| && pool.order[i] == p.id;
      assert items[i] == p;
    }
  }

  /** Sorting keeps the same set of products. */
  lemma SortedItems(s: seq<Scored<Product>>)
    ensures forall p :: p in Items(SortDesc(s)) <==> p in Items(s)
  {
    forall p | p in Items(SortDesc(s)) ensures p in Items(s) {
      SortedItemOut(s, p);
    }
    forall p | p in Items(s) ensures p in Items(SortDesc(s)) {
      SortedItemIn(s, p);
    }
  }

  lemma SortedItemOut(s: seq<Scored<Product>>, p: Product)
    requires p in Items(SortDesc(s))
    ensures p in Items(s)
  {
    var sorted := SortDesc(s);
    var i :| 0 <= i < |sorted| && Items(sorted)[i] == p;
    SortDescElements(s, sorted[i]);
    assert sorted[i] in sorted;
    var k :| 0 <= k < |s| && s[k] == sorted[i];
    assert Items(s)[k] == p;
  }

  lemma SortedItemIn(s: seq<Scored<Product>>, p: Product)
    requires p in Items(s)
    ensures p in Items(SortDesc(s))
  {
    var sorted := SortDesc(s);
    var k :| 0 <= k < |s| && Items(s)[k] == p;
    SortDescElements(s, s[k]);
    assert s[k] in s;
    var i :| 0 <= i < |sorted| && sorted[i] == s[k];
    assert Items(sorted)[i] == p;
  }

  /**
   * The established path returns `limit` distinct products of the blend, or
   * all of them when fewer, each the first copy seen of its id; when the
   * blend fits in `limit` they come ordered by weighted total, highest
   * first.
   */
  lemma EstablishedFacts(w: Weights, candidates: seq<Product>, src: Sources, limit: nat)
    requires Components(w, candidates, src, limit).Ok?
    ensures var pool := GatherAll(Components(w, candidates, src, limit).value);
      var r := Established(w, candidates, src, limit);
      && r.Ok?
      && Distinct(r.value)
      && |r.value| == Min(limit, |pool.order|)
      && (forall p: Product :: p in r.value ==> p.id in pool.entries && pool.entries[p.id].product == p)
      && (|pool.order| <= limit ==> forall i, j :: 0 <= i < j < |r.value| ==>
            BlendedTotal(pool, w, r.value[i]) >= BlendedTotal(pool, w, r.value[j]))
  {
    var comps := Components(w, candidates, src, limit).value;
    var pool := GatherAll(comps);
    GatherAllWf(comps);
    var ranked := Ranked(pool, w);
    var items := Items(SortDesc(ranked));
    RankedItems(pool, w);
    SortedItems(ranked);
    assert Elems(items) == Elems(Items(ranked));
    DistinctCardinality(Items(ranked));
    ElemsCardinality(items);
    assert Distinct(items);
    DiversifiedFacts(items, limit);
    DistinctCardinality(items);
    assert forall p :: p in items ==> p in Items(ranked) by {
      assert forall p :: p in items <==> p in Elems(items);
      assert forall p :: p in Items(ranked) <==> p in Elems(Items(ranked));
    }
    if |pool.order| <= limit {
      TopItemsRanked(ranked, |ranked|, p => BlendedTotal(pool, w, p));
      assert Take(SortDesc(ranked), |ranked|) == SortDesc(ranked);
    }
  }
}
