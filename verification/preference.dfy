/**
 * The per-user preference scorer: the profile drawn from a user's recent
 * interactions, the nine-component feature vector of a (profile, product)
 * pair with its one-hot price tier, the guards and labels of the training
 * set, and the ranking of candidates. Fitting the linear support vector
 * machine and its decision function are not modelled: the decision
 * function is a parameter `decide` of the training set and a feature vector.
 */
module Preference {
  import opened Common
  import opened Ranking
  import Models

  /** An interaction row joined with its product; times in seconds. */
  datatype Interaction = Interaction(kind: string, timestamp: int, product: Models.Product)

  /** The user profile; the preference maps are keyed by the (possibly missing) category or brand. */
  datatype UserFeatures = UserFeatures(
    avgPrice: real,
    categoryPreferences: map<Option<string>, real>,
    brandPreferences: map<Option<string>, real>,
    interactionRecency: real,
    purchaseFrequency: real)

  /** The profile of a user without interactions. */
  const Defaults := UserFeatures(0.0, map[], map[], 0.0, 0.0)

  /** The look-back of the interaction query, in days. */
  const DaysBack := 90

  /** The interactions from the last 90 days, in their original order. */
  function Recent(interactions: seq<Interaction>, now: int): (r: seq<Interaction>)
    ensures |r| <= |interactions|
    ensures forall x :: x in r <==> x in interactions && x.timestamp >= now - DaysBack * Day
  {
    if interactions == [] then []
    else
      var n := |interactions| - 1;
      var x := interactions[n];
      Recent(interactions[..n], now) + (if x.timestamp >= now - DaysBack * Day then [x] else [])
  }

  // ---------------------------------------------------------------------
  // The user profile

  function CategoryOf(x: Interaction): Option<string> { x.product.category }
  function BrandOf(x: Interaction): Option<string> { x.product.brand }

  /** The key of every row, in order. */
  function Keys(rows: seq<Interaction>, key: Interaction -> Option<string>): (r: seq<Option<string>>)
    ensures |r| == |rows|
    ensures forall i :: 0 <= i < |rows| ==> r[i] == key(rows[i])
  {
    seq(|rows|, i requires 0 <= i < |rows| => key(rows[i]))
  }

  /** A `defaultdict(int)` counting the rows by `key`, filled row by row. */
  function Counts(rows: seq<Interaction>, key: Interaction -> Option<string>): map<Option<string>, nat> {
    if rows == [] then map[]
    else
      Bump(Counts(rows[..|rows| - 1], key), key(rows[|rows| - 1]))
  }

  /** `counts[k] += 1` on a `defaultdict(int)`. */
  function Bump(counts: map<Option<string>, nat>, k: Option<string>): map<Option<string>, nat> {
    counts[k := (if k in counts then counts[k] else 0) + 1]
  }

  /** The counted keys are exactly the keys that occur. */
  lemma {:induction false} CountsDomain(rows: seq<Interaction>, key: Interaction -> Option<string>)
    ensures forall k :: k in Counts(rows, key) <==> exists i :: 0 <= i < |rows| && key(rows[i]) == k
  {
    if rows != [] {
      var n := |rows| - 1;
      CountsDomain(rows[..n], key);
      assert forall i :: 0 <= i < n ==> rows[..n][i] == rows[i];
    }
  }

  /** Each count is the key's number of occurrences, at least 1 and at most the number of rows. */
  lemma {:induction false} CountsValue(rows: seq<Interaction>, key: Interaction -> Option<string>)
    ensures forall k :: k in Counts(rows, key) ==>
      Counts(rows, key)[k] == multiset(Keys(rows, key))[k] && 1 <= Counts(rows, key)[k] <= |rows|
    ensures forall k :: k !in Counts(rows, key) ==> multiset(Keys(rows, key))[k] == 0
  {
    if rows != [] {
      var n := |rows| - 1;
      CountsValue(rows[..n], key);
      assert Keys(rows, key) == Keys(rows[..n], key) + [key(rows[n])];
    }
  }

  /** `count / total` for every counted key. */
  function Shares(counts: map<Option<string>, nat>, total: nat): map<Option<string>, real>
    requires total > 0
  {
    map k | k in counts :: counts[k] as real / total as real
  }

  function PriceSum(rows: seq<Interaction>): real {
    if rows == [] then 0.0 else PriceSum(rows[..|rows| - 1]) + rows[|rows| - 1].product.price
  }

  /** The sum of `(now - timestamp).days` over the rows. */
  function DaySum(rows: seq<Interaction>, now: int): int {
    if rows == [] then 0 else DaySum(rows[..|rows| - 1], now) + DaysOld(now, rows[|rows| - 1].timestamp)
  }

  function PurchaseCount(rows: seq<Interaction>): nat {
    if rows == [] then 0
    else PurchaseCount(rows[..|rows| - 1]) + (if rows[|rows| - 1].kind == "purchase" then 1 else 0)
  }

  /** `max((now - created_at).days, 1)` */
  function Tenure(createdAt: int, now: int): (d: int)
    ensures d >= 1
  {
    var days := DaysOld(now, createdAt);
    if days < 1 then 1 else days
  }

  /**
   * The profile of the rows: mean price, the share of the rows per category
   * and per brand, mean age in days, and purchases per day of tenure.
   */
  function Features(rows: seq<Interaction>, createdAt: int, now: int): UserFeatures {
    if rows == [] then Defaults
    else
      var n := |rows| as real;
      UserFeatures(
        PriceSum(rows) / n,
        Shares(Counts(rows, CategoryOf), |rows|),
        Shares(Counts(rows, BrandOf), |rows|),
        DaySum(rows, now) as real / n,
        PurchaseCount(rows) as real / Tenure(createdAt, now) as real)
  }

  /** `_extract_user_features`: counting loop, normalisation, then the recency pass. */
  method ExtractUserFeatures(rows: seq<Interaction>, createdAt: int, now: int) returns (f: UserFeatures)
    ensures f == Features(rows, createdAt, now)
  {
    if rows == [] {
      return Defaults;
    }
    var prices := 0.0;
    var categoryCounts: map<Option<string>, nat> := map[];
    var brandCounts: map<Option<string>, nat> := map[];
    var purchaseCount := 0;
    var i := 0;
    while i < |rows|
      invariant 0 <= i <= |rows|
      invariant prices == PriceSum(rows[..i])
      invariant categoryCounts == Counts(rows[..i], CategoryOf)
      invariant brandCounts == Counts(rows[..i], BrandOf)
      invariant purchaseCount == PurchaseCount(rows[..i])
    {
      PrefixStep(rows, i, now);
      var product := rows[i].product;
      prices := prices + product.price;
      categoryCounts := Bump(categoryCounts, product.category);
      brandCounts := Bump(brandCounts, product.brand);
      if rows[i].kind == "purchase" {
        purchaseCount := purchaseCount + 1;
      }
      i := i + 1;
    }
    assert rows[..i] == rows;
    var total := |rows|;
    var categoryPreferences := map k | k in categoryCounts :: categoryCounts[k] as real / total as real;
    var brandPreferences := map k | k in brandCounts :: brandCounts[k] as real / total as real;
    var days := 0;
    i := 0;
    while i < |rows|
      invariant 0 <= i <= |rows|
      invariant days == DaySum(rows[..i], now)
    {
      PrefixStep(rows, i, now);
      days := days + DaysOld(now, rows[i].timestamp);
      i := i + 1;
    }
    assert rows[..i] == rows;
    f := UserFeatures(
      prices / total as real, categoryPreferences, brandPreferences,
      days as real / total as real, purchaseCount as real / Tenure(createdAt, now) as real);
  }

  /** The profile sums over one more row. */
  lemma PrefixStep(rows: seq<Interaction>, i: nat, now: int)
    requires i < |rows|
    ensures PriceSum(rows[..i + 1]) == PriceSum(rows[..i]) + rows[i].product.price
    ensures Counts(rows[..i + 1], CategoryOf) == Bump(Counts(rows[..i], CategoryOf), rows[i].product.category)
    ensures Counts(rows[..i + 1], BrandOf) == Bump(Counts(rows[..i], BrandOf), rows[i].product.brand)
    ensures PurchaseCount(rows[..i + 1]) == PurchaseCount(rows[..i]) + (if rows[i].kind == "purchase" then 1 else 0)
    ensures DaySum(rows[..i + 1], now) == DaySum(rows[..i], now) + DaysOld(now, rows[i].timestamp)
  {
    assert rows[..i + 1][..i] == rows[..i];
  }

  /** A share c / n of 1 <= c <= n lies in (0, 1]. */
  lemma ShareBounds(c: nat, n: nat)
    requires 1 <= c <= n
    ensures 0.0 < c as real / n as real <= 1.0
  {
    assert c as real / n as real * n as real == c as real;
  }

  /** A key has a share exactly when it occurs. */
  lemma ShareDomain(rows: seq<Interaction>, key: Interaction -> Option<string>, k: Option<string>)
    requires rows != []
    ensures k in Shares(Counts(rows, key), |rows|) <==> exists i :: 0 <= i < |rows| && key(rows[i]) == k
  {
    CountsDomain(rows, key);
  }

  /** Every share lies in (0, 1]. */
  lemma ShareRange(rows: seq<Interaction>, key: Interaction -> Option<string>, k: Option<string>)
    requires rows != []
    ensures var s := Shares(Counts(rows, key), |rows|);
      k in s ==> 0.0 < s[k] <= 1.0
  {
    var counts := Counts(rows, key);
    CountsValue(rows, key);
    if k in counts {
      ShareBounds(counts[k], |rows|);
    }
  }

  /** The share of one key is its number of occurrences over the number of rows, 0.0 when it does not occur. */
  lemma ShareValue(rows: seq<Interaction>, key: Interaction -> Option<string>, k: Option<string>)
    requires rows != []
    ensures GetReal(Shares(Counts(rows, key), |rows|), k) == multiset(Keys(rows, key))[k] as real / |rows| as real
  {
    var counts := Counts(rows, key);
    CountsValue(rows, key);
    var m := multiset(Keys(rows, key))[k];
    SharesEntry(counts, |rows|, k);
    if k !in counts {
      ZeroShare(|rows|);
      assert m == 0;
    }
  }

  lemma SharesEntry(counts: map<Option<string>, nat>, n: nat, k: Option<string>)
    requires n > 0
    ensures GetReal(Shares(counts, n), k) == if k in counts then counts[k] as real / n as real else 0.0
  {
  }

  lemma ZeroShare(n: nat)
    requires n > 0
    ensures 0 as real / n as real == 0.0
  {
  }

  /** The category preferences of a non-empty history: the categories that occur, each with its share of the rows. */
  lemma CategoryPreferences(rows: seq<Interaction>, createdAt: int, now: int)
    requires rows != []
    ensures var s := Features(rows, createdAt, now).categoryPreferences;
      && (forall c :: c in s <==> exists i :: 0 <= i < |rows| && rows[i].product.category == c)
      && (forall c :: c in s ==> 0.0 < s[c] <= 1.0)
      && (forall c :: GetReal(s, c) == multiset(Keys(rows, CategoryOf))[c] as real / |rows| as real)
  {
    var s := Features(rows, createdAt, now).categoryPreferences;
    assert s == Shares(Counts(rows, CategoryOf), |rows|);
    forall c ensures && (c in s <==> exists i :: 0 <= i < |rows| && rows[i].product.category == c)
                   && (c in s ==> 0.0 < s[c] <= 1.0)
                   && GetReal(s, c) == multiset(Keys(rows, CategoryOf))[c] as real / |rows| as real
    {
      assert forall i :: 0 <= i < |rows| ==> CategoryOf(rows[i]) == rows[i].product.category;
      ShareDomain(rows, CategoryOf, c);
      ShareRange(rows, CategoryOf, c);
      ShareValue(rows, CategoryOf, c);
    }
  }

  /** The brand preferences of a non-empty history: the brands that occur, each with its share of the rows. */
  lemma BrandPreferences(rows: seq<Interaction>, createdAt: int, now: int)
    requires rows != []
    ensures var s := Features(rows, createdAt, now).brandPreferences;
      && (forall b :: b in s <==> exists i :: 0 <= i < |rows| && rows[i].product.brand == b)
      && (forall b :: b in s ==> 0.0 < s[b] <= 1.0)
      && (forall b :: GetReal(s, b) == multiset(Keys(rows, BrandOf))[b] as real / |rows| as real)
  {
    var s := Features(rows, createdAt, now).brandPreferences;
    assert s == Shares(Counts(rows, BrandOf), |rows|);
    forall b ensures && (b in s <==> exists i :: 0 <= i < |rows| && rows[i].product.brand == b)
                   && (b in s ==> 0.0 < s[b] <= 1.0)
                   && GetReal(s, b) == multiset(Keys(rows, BrandOf))[b] as real / |rows| as real
    {
      assert forall i :: 0 <= i < |rows| ==> BrandOf(rows[i]) == rows[i].product.brand;
      ShareDomain(rows, BrandOf, b);
      ShareRange(rows, BrandOf, b);
      ShareValue(rows, BrandOf, b);
    }
  }

  lemma {:induction false} PriceSumBounds(rows: seq<Interaction>, lo: real, hi: real)
    requires forall i :: 0 <= i < |rows| ==> lo <= rows[i].product.price <= hi
    ensures |rows| as real * lo <= PriceSum(rows) <= |rows| as real * hi
  {
    if rows != [] {
      var n := |rows| - 1;
      PriceSumBounds(rows[..n], lo, hi);
      assert |rows| as real * lo == n as real * lo + lo;
      assert |rows| as real * hi == n as real * hi + hi;
    }
  }

  lemma MeanBounds(s: real, n: real, lo: real, hi: real)
    requires n > 0.0 && n * lo <= s <= n * hi
    ensures lo <= s / n <= hi
  {
    assert s / n * n == s;
  }

  /** A count of at most n spread over at least one day is between 0 and n per day. */
  lemma PerDay(c: nat, days: int, n: nat)
    requires days >= 1 && c <= n
    ensures 0.0 <= c as real / days as real <= n as real
  {
    var x := c as real / days as real;
    assert x * days as real == c as real;
  }

  lemma {:induction false} DaySumNonNegative(rows: seq<Interaction>, now: int)
    requires forall i :: 0 <= i < |rows| ==> rows[i].timestamp <= now
    ensures DaySum(rows, now) >= 0
  {
    if rows != [] {
      DaySumNonNegative(rows[..|rows| - 1], now);
    }
  }

  lemma {:induction false} PurchaseCountBound(rows: seq<Interaction>)
    ensures PurchaseCount(rows) <= |rows|
  {
    if rows != [] {
      PurchaseCountBound(rows[..|rows| - 1]);
    }
  }

  /**
   * The mean price lies between the lowest and the highest price, the
   * recency is non-negative for a history in the past, and purchases per day
   * of tenure lie between 0 and the number of rows.
   */
  lemma FeaturesBounds(rows: seq<Interaction>, createdAt: int, now: int, lo: real, hi: real)
    requires rows != []
    requires forall i :: 0 <= i < |rows| ==> lo <= rows[i].product.price <= hi
    ensures var f := Features(rows, createdAt, now);
      && lo <= f.avgPrice <= hi
      && 0.0 <= f.purchaseFrequency <= |rows| as real
      && ((forall i :: 0 <= i < |rows| ==> rows[i].timestamp <= now) ==> f.interactionRecency >= 0.0)
  {
    var f := Features(rows, createdAt, now);
    PriceSumBounds(rows, lo, hi);
    MeanBounds(PriceSum(rows), |rows| as real, lo, hi);
    assert f.avgPrice == PriceSum(rows) / |rows| as real;
    PurchaseCountBound(rows);
    assert f.purchaseFrequency == PurchaseCount(rows) as real / Tenure(createdAt, now) as real;
    PerDay(PurchaseCount(rows), Tenure(createdAt, now), |rows|);
    if forall i :: 0 <= i < |rows| ==> rows[i].timestamp <= now {
      DaySumNonNegative(rows, now);
    }
  }

  // ---------------------------------------------------------------------
  // The feature vector

  /** `_get_price_tier`: one-hot low / medium / high with cut-offs at 50 and 150. */
  function PriceTier(price: real): (t: seq<int>)
    ensures |t| == 3 && t[0] + t[1] + t[2] == 1
    ensures forall i :: 0 <= i < 3 ==> t[i] == 0 || t[i] == 1
    ensures t[0] == 1 <==> price < 50.0
    ensures t[2] == 1 <==> price >= 150.0
  {
    if price < 50.0 then [1, 0, 0]
    else if price < 150.0 then [0, 1, 0]
    else [0, 0, 1]
  }

  /** The position of the 1 in a tier. */
  function TierIndex(t: seq<int>): nat
    requires |t| == 3
  {
    if t[0] == 1 then 0 else if t[1] == 1 then 1 else 2
  }

  /** A higher price never falls in a lower tier. */
  lemma PriceTierMonotone(p: real, q: real)
    requires p <= q
    ensures TierIndex(PriceTier(p)) <= TierIndex(PriceTier(q))
  {
  }

  /**
   * A double-precision number as numpy computes it in the feature vector:
   * finite, or the positive infinity of a positive number divided by zero.
   */
  datatype Float = Finite(value: real) | PosInf

  predicate AllFinite(v: seq<Float>) {
    forall i :: 0 <= i < |v| ==> v[i].Finite?
  }

  /** The real components of a vector without infinities. */
  function Reals(v: seq<Float>): (r: seq<real>)
    requires AllFinite(v)
    ensures |r| == |v| && forall i :: 0 <= i < |v| ==> v[i] == Finite(r[i])
  {
    seq(|v|, i requires 0 <= i < |v| => v[i].value)
  }

  /**
   * `1.0 / (1.0 + recency / 30.0)`. The mean recency is an `np.float64`, so
   * at exactly -30 days the division by zero gives positive infinity (with a
   * warning) instead of raising.
   */
  function RecencyScore(recency: real): (r: Float)
    ensures r.PosInf? <==> recency == -30.0
    ensures r.Finite? ==> r.value * (1.0 + recency / 30.0) == 1.0
    ensures r.Finite? && recency >= 0.0 ==> 0.0 < r.value <= 1.0
  {
    var d := 1.0 + recency / 30.0;
    if d == 0.0 then PosInf else Finite(1.0 / d)
  }

  /** The recency score is 1 for a history of today and falls as the history ages. */
  lemma RecencyScoreDecreasing(r1: real, r2: real)
    requires 0.0 <= r1 <= r2
    ensures RecencyScore(0.0) == Finite(1.0)
    ensures RecencyScore(r1).value >= RecencyScore(r2).value
  {
    InverseAntitone(1.0 + r1 / 30.0, 1.0 + r2 / 30.0);
  }

  lemma InverseAntitone(d1: real, d2: real)
    requires 1.0 <= d1 <= d2
    ensures 1.0 / d1 >= 1.0 / d2
  {
    var x, y := 1.0 / d1, 1.0 / d2;
    assert x * d1 == 1.0 && y * d2 == 1.0;
    assert x * d2 >= x * d1;
    assert (x - y) * d2 >= 0.0;
  }

  /** `_calculate_category_similarity`: the user's share of the category, 0.0 when unseen. */
  function CategorySimilarity(uf: UserFeatures, category: Option<string>): real {
    GetReal(uf.categoryPreferences, category)
  }

  /** The category similarity to a profile is the fraction of the history in that category. */
  lemma CategorySimilarityShare(rows: seq<Interaction>, createdAt: int, now: int, category: Option<string>)
    requires rows != []
    ensures var s := CategorySimilarity(Features(rows, createdAt, now), category);
      && 0.0 <= s <= 1.0
      && s == multiset(Keys(rows, CategoryOf))[category] as real / |rows| as real
      && (s == 0.0 <==> forall i :: 0 <= i < |rows| ==> rows[i].product.category != category)
  {
    CategoryPreferences(rows, createdAt, now);
    ShareDomain(rows, CategoryOf, category);
    ShareRange(rows, CategoryOf, category);
    ShareValue(rows, CategoryOf, category);
  }

  function AbsReal(x: real): real {
    if x < 0.0 then -x else x
  }

  /**
   * `_create_feature_vector`: price distance and price ratio (both over
   * max(avg_price, 1.0)), category share, brand share, recency score,
   * purchase frequency and the three tier bits.
   */
  function FeatureVector(uf: UserFeatures, p: Models.Product): (v: seq<Float>)
    ensures |v| == 9
    ensures AllFinite(v) <==> uf.interactionRecency != -30.0
    ensures v[4] == RecencyScore(uf.interactionRecency)
    ensures var scale := MaxReal(uf.avgPrice, 1.0);
      && scale >= 1.0
      && v[0].Finite? && v[0].value * scale == AbsReal(uf.avgPrice - p.price)
      && v[1].Finite? && v[1].value * scale == p.price
      && v[2] == Finite(CategorySimilarity(uf, p.category))
      && v[6].Finite? && v[7].Finite? && v[8].Finite?
      && v[6].value + v[7].value + v[8].value == 1.0
      && (v[6].value == 1.0 <==> p.price < 50.0) && (v[8].value == 1.0 <==> p.price >= 150.0)
  {
    var scale := MaxReal(uf.avgPrice, 1.0);
    var tier := PriceTier(p.price);
    assert AbsReal(uf.avgPrice - p.price) / scale * scale == AbsReal(uf.avgPrice - p.price);
    assert p.price / scale * scale == p.price;
    var w := [Finite(AbsReal(uf.avgPrice - p.price) / scale), Finite(p.price / scale),
              Finite(CategorySimilarity(uf, p.category)), Finite(GetReal(uf.brandPreferences, p.brand)),
              RecencyScore(uf.interactionRecency), Finite(uf.purchaseFrequency),
              Finite(tier[0] as real), Finite(tier[1] as real), Finite(tier[2] as real)];
    assert w[4] == RecencyScore(uf.interactionRecency);
    assert AllFinite(w) <==> w[4].Finite? by {
      if w[4].Finite? {
        forall i | 0 <= i < |w| ensures w[i].Finite? {
          if i != 4 { assert i in {0, 1, 2, 3, 5, 6, 7, 8}; }
        }
      }
    }
    w
  }

  /** A profile of non-negative quantities gives a vector of non-negative components, shares and recency in [0, 1]. */
  lemma FeatureVectorBounds(uf: UserFeatures, p: Models.Product)
    requires uf.avgPrice >= 0.0 && uf.interactionRecency >= 0.0 && uf.purchaseFrequency >= 0.0 && p.price >= 0.0
    requires forall c :: c in uf.categoryPreferences ==> 0.0 <= uf.categoryPreferences[c] <= 1.0
    requires forall b :: b in uf.brandPreferences ==> 0.0 <= uf.brandPreferences[b] <= 1.0
    ensures AllFinite(FeatureVector(uf, p))
    ensures var v := FeatureVector(uf, p);
      && (forall i :: 0 <= i < 9 ==> v[i].value >= 0.0)
      && v[2].value <= 1.0 && v[3].value <= 1.0 && 0.0 < v[4].value <= 1.0
  {
    var scale := MaxReal(uf.avgPrice, 1.0);
    var v := FeatureVector(uf, p);
    assert v[0].value == AbsReal(uf.avgPrice - p.price) / scale;
    assert v[1].value == p.price / scale;
  }

  /** The vector of a product against the profile of a past history with non-negative prices is well defined and bounded. */
  lemma ProfileVectorBounds(rows: seq<Interaction>, createdAt: int, now: int, p: Models.Product)
    requires rows != [] && p.price >= 0.0
    requires forall i :: 0 <= i < |rows| ==> rows[i].timestamp <= now && rows[i].product.price >= 0.0
    ensures AllFinite(FeatureVector(Features(rows, createdAt, now), p))
    ensures var v := FeatureVector(Features(rows, createdAt, now), p);
      && (forall i :: 0 <= i < 9 ==> v[i].value >= 0.0)
      && v[2].value <= 1.0 && v[3].value <= 1.0 && 0.0 < v[4].value <= 1.0
  {
    var hi := PriceSum(rows);
    var uf := Features(rows, createdAt, now);
    CategoryPreferences(rows, createdAt, now);
    BrandPreferences(rows, createdAt, now);
    PriceSumBounds(rows, 0.0, 0.0 + MaxPrice(rows));
    FeaturesBounds(rows, createdAt, now, 0.0, MaxPrice(rows));
    FeatureVectorBounds(uf, p);
  }

  /** The highest price of a history. */
  function MaxPrice(rows: seq<Interaction>): (m: real)
    requires rows != []
    ensures forall i :: 0 <= i < |rows| ==> rows[i].product.price <= m
  {
    if |rows| == 1 then rows[0].product.price
    else MaxReal(MaxPrice(rows[..|rows| - 1]), rows[|rows| - 1].product.price)
  }

  /** The vectors of a list of products, in order. */
  function Vectors(uf: UserFeatures, products: seq<Models.Product>): seq<seq<Float>> {
    seq(|products|, i requires 0 <= i < |products| => FeatureVector(uf, products[i]))
  }

  predicate AllRowsFinite(rows: seq<seq<Float>>) {
    forall i :: 0 <= i < |rows| ==> AllFinite(rows[i])
  }

  /**
   * The vectors of a list of products hold an infinity exactly when the list
   * is not empty and the profile's mean recency is -30 days: every vector
   * shares the recency component.
   */
  lemma VectorsFinite(uf: UserFeatures, products: seq<Models.Product>)
    ensures |Vectors(uf, products)| == |products|
    ensures AllRowsFinite(Vectors(uf, products)) <==> products == [] || uf.interactionRecency != -30.0
  {
    var vs := Vectors(uf, products);
    if products != [] && uf.interactionRecency == -30.0 {
      assert !AllFinite(vs[0]);
    }
  }

  /** The message of the ValueError the classifier raises on a matrix with an infinity. */
  const InfiniteInput := "Input X contains infinity or a value too large for dtype('float64')."

  // ---------------------------------------------------------------------
  // Training set

  /** A labelled training example: 1 for a purchased product, 0 for a viewed unpurchased one. */
  datatype Example = Example(vector: seq<real>, target: int)

  predicate IsPositive(x: Interaction, purchased: set<int>) {
    x.product.id in purchased
  }

  predicate IsNegative(x: Interaction, purchased: set<int>) {
    x.kind == "view" && x.product.id !in purchased
  }

  /** The products of the rows with a purchased product, in row order. */
  function Positives(rows: seq<Interaction>, purchased: set<int>): (r: seq<Models.Product>) {
    if rows == [] then []
    else
      var x := rows[|rows| - 1];
      Positives(rows[..|rows| - 1], purchased) + (if IsPositive(x, purchased) then [x.product] else [])
  }

  /** The products of the view rows of unpurchased products, in row order. */
  function Negatives(rows: seq<Interaction>, purchased: set<int>): (r: seq<Models.Product>) {
    if rows == [] then []
    else
      var x := rows[|rows| - 1];
      Negatives(rows[..|rows| - 1], purchased) + (if IsNegative(x, purchased) then [x.product] else [])
  }

  /** The positive and negative products are those of the qualifying rows. */
  lemma {:induction false} ExamplesMembers(rows: seq<Interaction>, purchased: set<int>)
    ensures forall p :: p in Positives(rows, purchased) <==> exists x :: x in rows && IsPositive(x, purchased) && x.product == p
    ensures forall p :: p in Negatives(rows, purchased) <==> exists x :: x in rows && IsNegative(x, purchased) && x.product == p
  {
    if rows != [] {
      var n := |rows| - 1;
      ExamplesMembers(rows[..n], purchased);
      assert rows == rows[..n] + [rows[n]];
    }
  }

  /** There are no positive (negative) products exactly when no row is positive (negative). */
  lemma {:induction false} SelectedEmpty(rows: seq<Interaction>, purchased: set<int>)
    ensures Positives(rows, purchased) == [] <==> forall x :: x in rows ==> !IsPositive(x, purchased)
    ensures Negatives(rows, purchased) == [] <==> forall x :: x in rows ==> !IsNegative(x, purchased)
  {
    if rows != [] {
      var n := |rows| - 1;
      SelectedEmpty(rows[..n], purchased);
      assert rows == rows[..n] + [rows[n]];
    }
  }

  /**
   * `_train_user_model` up to the fit: no model for fewer than 10 recent
   * interactions, fewer than 3 distinct purchased products, or a single
   * label class; ValueError from the fit when a vector holds an infinity;
   * otherwise the positive examples followed by the negative ones, as
   * handed to the classifier.
   */
  function TrainUserModel(interactions: seq<Interaction>, purchases: seq<int>, createdAt: int, now: int): (r: Result<Option<seq<Example>>>)
  {
    var rows := Recent(interactions, now);
    if |rows| < 10 then Ok(None)
    else
      var purchased := Elems(purchases);
      if |purchased| < 3 then Ok(None)
      else
        var uf := Features(rows, createdAt, now);
        var pos, neg := Positives(rows, purchased), Negatives(rows, purchased);
        var vs := Vectors(uf, pos + neg);
        if pos == [] || neg == [] then Ok(None)
        else if !AllRowsFinite(vs) then Err(ValueError(InfiniteInput))
        else Ok(Some(seq(|vs|, i requires 0 <= i < |vs| => Example(Reals(vs[i]), if i < |pos| then 1 else 0))))
  }

  /**
   * The three guards: no model exactly when one of them fails. When all of
   * them pass, the fit raises ValueError exactly when the mean recency is
   * -30 days, and otherwise a model is trained.
   */
  lemma TrainUserModelGuards(interactions: seq<Interaction>, purchases: seq<int>, createdAt: int, now: int)
    ensures var r := TrainUserModel(interactions, purchases, createdAt, now);
      var rows := Recent(interactions, now);
      var purchased := Elems(purchases);
      var guarded :=
          || |rows| < 10
          || |purchased| < 3
          || (forall x :: x in rows ==> !IsPositive(x, purchased))
          || (forall x :: x in rows ==> !IsNegative(x, purchased));
      && (r == Ok(None) <==> guarded)
      && (r.Err? <==> !guarded && Features(rows, createdAt, now).interactionRecency == -30.0)
      && (r.Err? ==> r.error == ValueError(InfiniteInput))
  {
    var rows := Recent(interactions, now);
    var purchased := Elems(purchases);
    if |rows| >= 10 && |purchased| >= 3 {
      SelectedEmpty(rows, purchased);
      var uf := Features(rows, createdAt, now);
      var pos, neg := Positives(rows, purchased), Negatives(rows, purchased);
      VectorsFinite(uf, pos + neg);
    }
  }

  /** A trained model sees every positive row labelled 1 before every negative row labelled 0. */
  lemma TrainUserModelLabels(interactions: seq<Interaction>, purchases: seq<int>, createdAt: int, now: int)
    requires TrainUserModel(interactions, purchases, createdAt, now).Ok?
    requires TrainUserModel(interactions, purchases, createdAt, now).value.Some?
    ensures var data := TrainUserModel(interactions, purchases, createdAt, now).value.value;
      var rows := Recent(interactions, now);
      var purchased := Elems(purchases);
      var pos, neg := Positives(rows, purchased), Negatives(rows, purchased);
      var uf := Features(rows, createdAt, now);
      && |data| == |pos| + |neg| && pos != [] && neg != []
      && uf.interactionRecency != -30.0
      && (forall i :: 0 <= i < |pos| ==> data[i] == Example(Reals(FeatureVector(uf, pos[i])), 1))
      && (forall i :: 0 <= i < |neg| ==> data[|pos| + i] == Example(Reals(FeatureVector(uf, neg[i])), 0))
  {
    var rows := Recent(interactions, now);
    var purchased := Elems(purchases);
    var pos, neg := Positives(rows, purchased), Negatives(rows, purchased);
    var uf := Features(rows, createdAt, now);
    assert |rows| >= 10 && |purchased| >= 3;
    var vs := Vectors(uf, pos + neg);
    VectorsFinite(uf, pos + neg);
    var data := TrainUserModel(interactions, purchases, createdAt, now).value.value;
    assert data == seq(|vs|, i requires 0 <= i < |vs| => Example(Reals(vs[i]), if i < |pos| then 1 else 0));
    forall i | 0 <= i < |neg| ensures (pos + neg)[|pos| + i] == neg[i] { }
  }

  // ---------------------------------------------------------------------
  // Ranking

  /** The decision score of a product, 0.0 where its vector holds an infinity. */
  function SvmScore(decide: (seq<Example>, seq<real>) -> real, data: seq<Example>, uf: UserFeatures, p: Models.Product): real {
    var v := FeatureVector(uf, p);
    if AllFinite(v) then decide(data, Reals(v)) else 0.0
  }

  /**
   * `get_recommendations`: no recommendations below 5 interactions in all
   * or without a model; the fit's ValueError propagates; otherwise the
   * candidates by decision score, highest first, at most `limit` of them.
   * The decision function rejects an infinity like the fit does.
   */
  function GetRecommendations(
    interactions: seq<Interaction>, purchases: seq<int>, createdAt: int, now: int,
    decide: (seq<Example>, seq<real>) -> real, candidates: seq<Models.Product>, limit: nat): (r: Result<seq<Models.Product>>)
    ensures |interactions| < 5 ==> r == Ok([])
    ensures r.Ok? ==> |r.value| <= limit
  {
    if |interactions| < 5 then Ok([])
    else
      match TrainUserModel(interactions, purchases, createdAt, now)
      case Err(e) => Err(e)
      case Ok(None) => Ok([])
      case Ok(Some(data)) =>
        RankCandidates(decide, data, Features(Recent(interactions, now), createdAt, now), candidates, limit)
  }

  /** The scoring loop of `get_recommendations` and its `[:limit]` of the stable descending sort. */
  function RankCandidates(decide: (seq<Example>, seq<real>) -> real, data: seq<Example>, uf: UserFeatures,
                          candidates: seq<Models.Product>, limit: nat): Result<seq<Models.Product>>
  {
    var vs := Vectors(uf, candidates);
    if !AllRowsFinite(vs) then Err(ValueError(InfiniteInput))
    else Ok(TopItems(seq(|candidates|, i requires 0 <= i < |candidates| => Scored(decide(data, Reals(vs[i])), candidates[i])), limit))
  }

  /**
   * The ranked candidates: at most `limit` of them, in non-increasing
   * decision score, and all of them when they fit.
   */
  lemma RankCandidatesFacts(decide: (seq<Example>, seq<real>) -> real, data: seq<Example>, uf: UserFeatures,
                            candidates: seq<Models.Product>, limit: nat)
    requires RankCandidates(decide, data, uf, candidates, limit).Ok?
    ensures var r := RankCandidates(decide, data, uf, candidates, limit).value;
      && |r| <= limit
      && (forall p :: p in r ==> p in candidates)
      && (forall i, j :: 0 <= i < j < |r| ==> SvmScore(decide, data, uf, r[i]) >= SvmScore(decide, data, uf, r[j]))
      && (|candidates| <= limit ==> forall p :: p in candidates ==> p in r)
  {
    var vs := Vectors(uf, candidates);
    var s := seq(|candidates|, i requires 0 <= i < |candidates| => Scored(decide(data, Reals(vs[i])), candidates[i]));
    TopItemsRanked(s, limit, p => SvmScore(decide, data, uf, p));
    assert Items(s) == candidates;
  }

  /**
   * The only error of `get_recommendations` is the fit's ValueError: once a
   * model is trained the recency is finite, so scoring the candidates never
   * meets an infinity.
   */
  lemma GetRecommendationsErrors(
    interactions: seq<Interaction>, purchases: seq<int>, createdAt: int, now: int,
    decide: (seq<Example>, seq<real>) -> real, candidates: seq<Models.Product>, limit: nat)
    ensures var r := GetRecommendations(interactions, purchases, createdAt, now, decide, candidates, limit);
      r.Err? <==> |interactions| >= 5 && TrainUserModel(interactions, purchases, createdAt, now).Err?
    ensures var r := GetRecommendations(interactions, purchases, createdAt, now, decide, candidates, limit);
      r.Err? ==> r == Err(ValueError(InfiniteInput))
  {
    if |interactions| >= 5 {
      var model := TrainUserModel(interactions, purchases, createdAt, now);
      TrainUserModelGuards(interactions, purchases, createdAt, now);
      if model.Ok? && model.value.Some? {
        var uf := Features(Recent(interactions, now), createdAt, now);
        VectorsFinite(uf, candidates);
      }
    }
  }

  /**
   * A non-empty list comes from a trained model; it holds candidates in
   * non-increasing decision score, and all of them when they fit.
   */
  lemma GetRecommendationsRanked(
    interactions: seq<Interaction>, purchases: seq<int>, createdAt: int, now: int,
    decide: (seq<Example>, seq<real>) -> real, candidates: seq<Models.Product>, limit: nat)
    requires GetRecommendations(interactions, purchases, createdAt, now, decide, candidates, limit).Ok?
    ensures var r := GetRecommendations(interactions, purchases, createdAt, now, decide, candidates, limit).value;
      var model := TrainUserModel(interactions, purchases, createdAt, now);
      var uf := Features(Recent(interactions, now), createdAt, now);
      && (forall p :: p in r ==> p in candidates)
      && (r != [] ==> |interactions| >= 5 && model.Ok? && model.value.Some?)
      && (r != [] ==> forall i, j :: 0 <= i < j < |r| ==>
            SvmScore(decide, model.value.value, uf, r[i]) >= SvmScore(decide, model.value.value, uf, r[j]))
      && (|interactions| >= 5 && model.Ok? && model.value.Some? && |candidates| <= limit ==>
            (forall p :: p in candidates ==> p in r))
  {
    if |interactions| >= 5 {
      var model := TrainUserModel(interactions, purchases, createdAt, now);
      if model.Ok? && model.value.Some? {
        RankCandidatesFacts(decide, model.value.value, Features(Recent(interactions, now), createdAt, now), candidates, limit);
      }
    }
  }
}
