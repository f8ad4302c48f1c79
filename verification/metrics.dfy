/**
 * `RecommendationMetrics`: the quality measures the test-suite computes on a
 * list of recommended products — precision@k, recall@k, category diversity
 * and catalogue coverage. Each is a ratio of counts; the lemmas state the
 * bounds the tests assert and when each bound is reached.
 */
module Metrics {
  import opened Common
  import Models

  type Product = Models.Product

  /** How many of the products have an id among the relevant ones. */
  function Hits(recs: seq<Product>, relevant: set<int>): nat {
    if recs == [] then 0
    else Hits(recs[..|recs| - 1], relevant) + (if recs[|recs| - 1].id in relevant then 1 else 0)
  }

  /** No product is counted twice and none is missed: hits never exceed the list, and equal it exactly when every product is relevant. */
  lemma {:induction false} HitsBound(recs: seq<Product>, relevant: set<int>)
    ensures Hits(recs, relevant) <= |recs|
    ensures Hits(recs, relevant) == |recs| <==> forall i :: 0 <= i < |recs| ==> recs[i].id in relevant
    ensures Hits(recs, relevant) == 0 <==> forall i :: 0 <= i < |recs| ==> recs[i].id !in relevant
  {
    if recs != [] {
      var init := recs[..|recs| - 1];
      HitsBound(init, relevant);
      assert forall i :: 0 <= i < |init| ==> init[i] == recs[i];
    }
  }

  /** A longer prefix has at least as many hits. */
  lemma {:induction false} HitsPrefix(recs: seq<Product>, relevant: set<int>, n: nat)
    requires n <= |recs|
    ensures Hits(recs[..n], relevant) <= Hits(recs, relevant)
    decreases |recs|
  {
    if n < |recs| {
      var init := recs[..|recs| - 1];
      assert init[..n] == recs[..n];
      HitsPrefix(init, relevant, n);
    } else {
      assert recs[..n] == recs;
    }
  }

  predicate DistinctIds(recs: seq<Product>) {
    forall i, j :: 0 <= i < j < |recs| ==> recs[i].id != recs[j].id
  }

  /** The relevant ids that appear among the products. */
  function HitIds(recs: seq<Product>, relevant: set<int>): set<int> {
    set i | 0 <= i < |recs| && recs[i].id in relevant :: recs[i].id
  }

  /** Without repeated ids each hit is a different relevant id, so the hits are at most the relevant items. */
  lemma {:induction false} HitsDistinct(recs: seq<Product>, relevant: set<int>)
    requires DistinctIds(recs)
    ensures Hits(recs, relevant) == |HitIds(recs, relevant)|
    ensures Hits(recs, relevant) <= |relevant|
  {
    if recs != [] {
      var init := recs[..|recs| - 1];
      var last := recs[|recs| - 1];
      assert DistinctIds(init) by {
        forall i, j | 0 <= i < j < |init| ensures init[i].id != init[j].id {
          assert init[i] == recs[i] && init[j] == recs[j];
        }
      }
      HitsDistinct(init, relevant);
      HitIdsSnoc(recs, relevant);
    }
    assert HitIds(recs, relevant) <= relevant;
    SubsetCardinality(HitIds(recs, relevant), relevant);
  }

  /** The hit ids of a list are those of all but its last product, plus the last id when relevant and new. */
  lemma HitIdsSnoc(recs: seq<Product>, relevant: set<int>)
    requires recs != [] && DistinctIds(recs)
    ensures var init := recs[..|recs| - 1]; var last := recs[|recs| - 1];
      HitIds(recs, relevant) == HitIds(init, relevant) + (if last.id in relevant then {last.id} else {})
      && last.id !in HitIds(init, relevant)
  {
    var init := recs[..|recs| - 1];
    var last := recs[|recs| - 1];
    forall x | x in HitIds(recs, relevant)
      ensures x in HitIds(init, relevant) + (if last.id in relevant then {last.id} else {})
    {
      var i :| 0 <= i < |recs| && recs[i].id in relevant && recs[i].id == x;
      if i < |init| {
        assert init[i] == recs[i];
      }
    }
    forall x | x in HitIds(init, relevant) ensures x in HitIds(recs, relevant) {
      var i :| 0 <= i < |init| && init[i].id in relevant && init[i].id == x;
      assert recs[i] == init[i];
    }
    forall i | 0 <= i < |init| ensures init[i].id != last.id {
      assert init[i] == recs[i];
    }
  }

  /** A ratio of counts with a positive denominator lies in [0, 1] when the numerator is at most the denominator, and is 1 exactly when they are equal. */
  lemma Ratio(a: nat, b: nat)
    requires b > 0
    ensures (a as real) / (b as real) >= 0.0
    ensures a <= b ==> (a as real) / (b as real) <= 1.0
    ensures (a as real) / (b as real) == 1.0 <==> a == b
    ensures (a as real) / (b as real) == 0.0 <==> a == 0
  {
    var q := (a as real) / (b as real);
    assert q * (b as real) == a as real;
  }

  lemma QuotientMonotone(a: nat, a': nat, b: nat)
    requires a <= a' && b > 0
    ensures (a as real) / (b as real) <= (a' as real) / (b as real)
  {
  }

  // ---------------------------------------------------------------------
  // precision@k

  /**
   * `calculate_precision_at_k`: 0 for no recommendations, otherwise the hits
   * among the first `k` over min(k, length of that prefix); `k` = 0 divides
   * by zero.
   */
  function PrecisionAtK(recs: seq<Product>, relevant: set<int>, k: nat): Result<real> {
    if recs == [] then Ok(0.0)
    else if Min(k, |Take(recs, k)|) == 0 then Err(ZeroDivisionError)
    else Ok((Hits(Take(recs, k), relevant) as real) / (Min(k, |Take(recs, k)|) as real))
  }

  /**
   * Precision is 0 without recommendations and fails only for k = 0.
   * Otherwise it lies in [0, 1]. It is 1 exactly when each of the first `k`
   * is relevant and 0 exactly when none of them is.
   */
  lemma PrecisionBounds(recs: seq<Product>, relevant: set<int>, k: nat)
    ensures recs == [] ==> PrecisionAtK(recs, relevant, k) == Ok(0.0)
    ensures PrecisionAtK(recs, relevant, k).Err? <==> recs != [] && k == 0
    ensures PrecisionAtK(recs, relevant, k).Ok? ==>
      0.0 <= PrecisionAtK(recs, relevant, k).value <= 1.0
    ensures recs != [] && k > 0 ==>
      (PrecisionAtK(recs, relevant, k).value == 1.0 <==>
        forall i :: 0 <= i < |Take(recs, k)| ==> Take(recs, k)[i].id in relevant)
    ensures recs != [] && k > 0 ==>
      (PrecisionAtK(recs, relevant, k).value == 0.0 <==>
        forall i :: 0 <= i < |Take(recs, k)| ==> Take(recs, k)[i].id !in relevant)
  {
    var top := Take(recs, k);
    HitsBound(top, relevant);
    if recs != [] && k > 0 {
      assert Min(k, |top|) == |top|;
      Ratio(Hits(top, relevant), |top|);
    }
  }

  // ---------------------------------------------------------------------
  // recall@k

  /** `calculate_recall_at_k`: 0 without relevant items, otherwise the hits among the first `k` over the number of relevant items. */
  function RecallAtK(recs: seq<Product>, relevant: set<int>, k: nat): real {
    if relevant == {} then 0.0
    else (Hits(Take(recs, k), relevant) as real) / (|relevant| as real)
  }

  /** Recall is never negative, and at most 1 when the recommended ids are distinct. */
  lemma RecallBounds(recs: seq<Product>, relevant: set<int>, k: nat)
    ensures relevant == {} ==> RecallAtK(recs, relevant, k) == 0.0
    ensures RecallAtK(recs, relevant, k) >= 0.0
    ensures DistinctIds(recs) ==> RecallAtK(recs, relevant, k) <= 1.0
  {
    if relevant != {} {
      var top := Take(recs, k);
      Ratio(Hits(top, relevant), |relevant|);
      if DistinctIds(recs) {
        assert DistinctIds(top) by {
          forall i, j | 0 <= i < j < |top| ensures top[i].id != top[j].id {
            assert top[i] == recs[i] && top[j] == recs[j];
          }
        }
        HitsDistinct(top, relevant);
      }
    }
  }

  /** Recall does not decrease as k grows, because the prefix only gets longer. */
  lemma RecallMonotone(recs: seq<Product>, relevant: set<int>, k: nat, k': nat)
    requires k <= k'
    ensures RecallAtK(recs, relevant, k) <= RecallAtK(recs, relevant, k')
  {
    if relevant != {} {
      var short := Take(recs, k);
      var long := Take(recs, k');
      assert short == long[..|short|];
      HitsPrefix(long, relevant, |short|);
      QuotientMonotone(Hits(short, relevant), Hits(long, relevant), |relevant|);
    }
  }

  // ---------------------------------------------------------------------
  // Diversity and coverage

  /** The category of each recommendation, in order. */
  function CategoryList(recs: seq<Product>): (r: seq<Option<string>>)
    ensures |r| == |recs|
    ensures forall i :: 0 <= i < |recs| ==> r[i] == recs[i].category
  {
    seq(|recs|, i requires 0 <= i < |recs| => recs[i].category)
  }

  /** `calculate_diversity`: distinct categories over the number of recommendations, 0 for none. */
  function Diversity(recs: seq<Product>): real {
    if recs == [] then 0.0
    else (|Elems(CategoryList(recs))| as real) / (|recs| as real)
  }

  /** Diversity is 0 exactly for no recommendations, otherwise in (0, 1], and 1 exactly when no two share a category. */
  lemma DiversityBounds(recs: seq<Product>)
    ensures recs == [] <==> Diversity(recs) == 0.0
    ensures 0.0 <= Diversity(recs) <= 1.0
    ensures recs != [] ==> (Diversity(recs) == 1.0 <==> Distinct(CategoryList(recs)))
  {
    if recs != [] {
      var cats := CategoryList(recs);
      ElemsCardinality(cats);
      if Distinct(cats) {
        DistinctCardinality(cats);
      }
      assert cats[0] in Elems(cats);
      Ratio(|Elems(cats)|, |recs|);
    }
  }

  function Ids(products: seq<Product>): set<int> {
    set i | 0 <= i < |products| :: products[i].id
  }

  /** `calculate_coverage`: distinct recommended ids over distinct catalogue ids, 0 for an empty catalogue. */
  function Coverage(recs: seq<Product>, catalog: seq<Product>): real {
    if catalog == [] then 0.0
    else
      assert catalog[0].id in Ids(catalog);
      (|Ids(recs)| as real) / (|Ids(catalog)| as real)
  }

  /**
   * Coverage is never negative. When every recommended id is in the
   * catalogue it is at most 1, and it is 1 exactly when the recommendations
   * cover every catalogue id.
   */
  lemma CoverageBounds(recs: seq<Product>, catalog: seq<Product>)
    ensures catalog == [] ==> Coverage(recs, catalog) == 0.0
    ensures Coverage(recs, catalog) >= 0.0
    ensures catalog != [] && Ids(recs) <= Ids(catalog) ==>
      Coverage(recs, catalog) <= 1.0 && (Coverage(recs, catalog) == 1.0 <==> Ids(recs) == Ids(catalog))
  {
    if catalog != [] {
      assert catalog[0].id in Ids(catalog);
      Ratio(|Ids(recs)|, |Ids(catalog)|);
      if Ids(recs) <= Ids(catalog) {
        SubsetCardinality(Ids(recs), Ids(catalog));
        if |Ids(recs)| == |Ids(catalog)| {
          SubsetSameSize(Ids(recs), Ids(catalog));
        }
      }
    }
  }
}
