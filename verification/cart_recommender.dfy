/**
 * The recommending side of `ShoppingCartRecommender`: recommendations for a
 * cart, complementary products for one product, abandoned-cart recovery and
 * the category diversification. Each recommender scores candidates against
 * a set of anchor products with the association score, keeps the positive
 * totals and returns the best `limit` after the stable descending sort.
 * Candidates are products; the association data is an input (it is what
 * `_get_association_data` computes from the orders).
 */
module CartRecommender {
  import opened Common
  import opened Ranking
  import opened Association
  import Models

  type Product = Models.Product

  /** Σ over the anchors of `weight` × score(anchor → target), accumulated left to right. */
  function AnchorScore(s: Settings, d: AssociationData, anchors: seq<int>, target: int, weight: real,
                       log1p: nat -> real): real
  {
    if anchors == [] then 0.0
    else AnchorScore(s, d, anchors[..|anchors| - 1], target, weight, log1p)
         + AssociationScore(s, anchors[|anchors| - 1], target, d, log1p) * weight
  }

  lemma ScaledScore(s: Settings, d: AssociationData, anchor: int, target: int, weight: real,
                    log1p: nat -> real)
    requires IsLog1p(log1p) && weight > 0.0
    ensures AssociationScore(s, anchor, target, d, log1p) * weight >= 0.0
    ensures AssociationScore(s, anchor, target, d, log1p) * weight > 0.0
        <==> AssociationScore(s, anchor, target, d, log1p) > 0.0
  {
    ScoreGates(s, Get(d.associations, (anchor, target)), CountOf(d.counts, anchor),
               CountOf(d.counts, target), d.totalOrders, log1p);
    var x := AssociationScore(s, anchor, target, d, log1p);
    if x > 0.0 {
      PositiveProduct(x, weight);
    }
  }

  /**
   * A candidate's total from its anchors is never negative, and it is
   * positive exactly when some anchor's association with it passes both
   * gates.
   */
  lemma {:induction false} AnchorScorePositive(s: Settings, d: AssociationData, anchors: seq<int>,
                                               target: int, weight: real, log1p: nat -> real)
    requires IsLog1p(log1p) && weight > 0.0
    ensures AnchorScore(s, d, anchors, target, weight, log1p) >= 0.0
    ensures AnchorScore(s, d, anchors, target, weight, log1p) > 0.0
        <==> exists i :: 0 <= i < |anchors| && AssociationScore(s, anchors[i], target, d, log1p) > 0.0
  {
    var xs := AnchorTerms(s, d, anchors, target, log1p);
    forall i | 0 <= i < |xs| ensures xs[i] >= 0.0 {
      ScaledScore(s, d, anchors[i], target, weight, log1p);
    }
    AnchorScoreTerms(s, d, anchors, target, weight, log1p);
    ScaledSumPositive(xs, weight);
    if exists i :: 0 <= i < |xs| && xs[i] > 0.0 {
      var i :| 0 <= i < |xs| && xs[i] > 0.0;
      assert AssociationScore(s, anchors[i], target, d, log1p) > 0.0;
    }
  }

  /** Each anchor's association score with the target, in anchor order. */
  function AnchorTerms(s: Settings, d: AssociationData, anchors: seq<int>, target: int,
                       log1p: nat -> real): (r: seq<real>)
    ensures |r| == |anchors|
    ensures forall i :: 0 <= i < |r| ==> r[i] == AssociationScore(s, anchors[i], target, d, log1p)
  {
    seq(|anchors|, i requires 0 <= i < |anchors| => AssociationScore(s, anchors[i], target, d, log1p))
  }

  /** Σ xs[i] × weight, accumulated left to right. */
  function ScaledSum(xs: seq<real>, weight: real): real {
    if xs == [] then 0.0 else ScaledSum(xs[..|xs| - 1], weight) + xs[|xs| - 1] * weight
  }

  lemma {:induction false} AnchorScoreTerms(s: Settings, d: AssociationData, anchors: seq<int>,
                                            target: int, weight: real, log1p: nat -> real)
    ensures AnchorScore(s, d, anchors, target, weight, log1p)
         == ScaledSum(AnchorTerms(s, d, anchors, target, log1p), weight)
  {
    if anchors != [] {
      var n := |anchors| - 1;
      var xs := AnchorTerms(s, d, anchors, target, log1p);
      AnchorScoreTerms(s, d, anchors[..n], target, weight, log1p);
      assert xs[..n] == AnchorTerms(s, d, anchors[..n], target, log1p);
    }
  }

  /** A scaled sum of non-negative terms is non-negative, and positive exactly when some term is. */
  lemma {:induction false} ScaledSumPositive(xs: seq<real>, weight: real)
    requires weight > 0.0
    requires forall i :: 0 <= i < |xs| ==> xs[i] >= 0.0
    ensures ScaledSum(xs, weight) >= 0.0
    ensures ScaledSum(xs, weight) > 0.0 <==> exists i :: 0 <= i < |xs| && xs[i] > 0.0
  {
    if xs != [] {
      var n := |xs| - 1;
      var init := xs[..n];
      assert forall i :: 0 <= i < |init| ==> init[i] == xs[i];
      ScaledSumPositive(init, weight);
      ScaledTerm(xs[n], weight);
      NonNegativeSum(ScaledSum(init, weight), xs[n] * weight);
      if exists i :: 0 <= i < |xs| && xs[i] > 0.0 {
        var i :| 0 <= i < |xs| && xs[i] > 0.0;
        if i < n {
          assert init[i] > 0.0;
        }
      }
    }
  }

  lemma ScaledTerm(x: real, weight: real)
    requires x >= 0.0 && weight > 0.0
    ensures x * weight >= 0.0
    ensures x * weight > 0.0 <==> x > 0.0
  {
    if x > 0.0 {
      PositiveProduct(x, weight);
    }
  }

  lemma NonNegativeSum(a: real, b: real)
    requires a >= 0.0 && b >= 0.0
    ensures a + b >= 0.0
    ensures a + b > 0.0 <==> a > 0.0 || b > 0.0
  {
  }

  /** The inner loop that totals one candidate's score over the anchors. */
  method SumAnchorScores(s: Settings, d: AssociationData, anchors: seq<int>, target: int, weight: real,
                         log1p: nat -> real) returns (total: real)
    ensures total == AnchorScore(s, d, anchors, target, weight, log1p)
  {
    total := 0.0;
    for k := 0 to |anchors|
      invariant total == AnchorScore(s, d, anchors[..k], target, weight, log1p)
    {
      assert anchors[..k + 1][..k] == anchors[..k];
      total := total + AssociationScore(s, anchors[k], target, d, log1p) * weight;
    }
    assert anchors[..|anchors|] == anchors;
  }

  // ---------------------------------------------------------------------
  // get_cart_recommendations

  /** What a candidate collects from the whole cart. */
  function CartScore(s: Settings, d: AssociationData, cart: seq<int>, id: int, log1p: nat -> real): real {
    AnchorScore(s, d, cart, id, 1.0, log1p)
  }

  /** `scored_products` before the sort: candidates outside the cart with a positive total. */
  function CartScored(s: Settings, d: AssociationData, cart: seq<int>, candidates: seq<Product>,
                      log1p: nat -> real): (r: seq<Scored<Product>>)
    ensures |r| <= |candidates|
    ensures forall i :: 0 <= i < |r| ==>
      && r[i].item in candidates
      && r[i].item.id !in cart
      && r[i].score == CartScore(s, d, cart, r[i].item.id, log1p)
      && r[i].score > 0.0
  {
    if candidates == [] then []
    else
      var p := candidates[|candidates| - 1];
      var total := CartScore(s, d, cart, p.id, log1p);
      CartScored(s, d, cart, candidates[..|candidates| - 1], log1p)
        + (if p.id !in cart && total > 0.0 then [Scored(total, p)] else [])
  }

  lemma {:induction false} CartScoredComplete(s: Settings, d: AssociationData, cart: seq<int>,
                                              candidates: seq<Product>, log1p: nat -> real, p: Product)
    requires p in candidates && p.id !in cart && CartScore(s, d, cart, p.id, log1p) > 0.0
    ensures p in Items(CartScored(s, d, cart, candidates, log1p))
  {
    var init := candidates[..|candidates| - 1];
    var r := CartScored(s, d, cart, candidates, log1p);
    if p == candidates[|candidates| - 1] {
      assert r[|r| - 1].item == p;
      assert Items(r)[|r| - 1] == p;
    } else {
      assert p in init;
      CartScoredComplete(s, d, cart, init, log1p, p);
      var rest := CartScored(s, d, cart, init, log1p);
      var k :| 0 <= k < |rest| && Items(rest)[k] == p;
      assert r[k] == rest[k];
      assert Items(r)[k] == p;
    }
  }

  /**
   * `get_cart_recommendations`. The per-candidate attribute the source sets
   * on each product is not modelled.
   */
  method GetCartRecommendations(s: Settings, d: AssociationData, cart: seq<int>, candidates: seq<Product>,
                                limit: nat, diversify: bool, log1p: nat -> real) returns (r: seq<Product>)
    ensures cart == [] ==> r == []
    ensures cart != [] && !diversify ==> r == TopItems(CartScored(s, d, cart, candidates, log1p), limit)
    ensures cart != [] && diversify ==>
      r == Diversified(Items(SortDesc(CartScored(s, d, cart, candidates, log1p))), limit)
  {
    if cart == [] {
      return [];
    }
    var productScores: map<int, real> := map[];
    for i := 0 to |candidates|
      invariant forall id :: id in productScores ==>
        id !in cart && productScores[id] == CartScore(s, d, cart, id, log1p) && productScores[id] > 0.0
      invariant forall j :: 0 <= j < i ==>
        (candidates[j].id !in cart && CartScore(s, d, cart, candidates[j].id, log1p) > 0.0 ==> candidates[j].id in productScores)
    {
      var p := candidates[i];
      if p.id !in cart {
        var total := SumAnchorScores(s, d, cart, p.id, 1.0, log1p);
        if total > 0.0 {
          productScores := productScores[p.id := total];
        }
      }
    }
    var scored: seq<Scored<Product>> := [];
    for i := 0 to |candidates|
      invariant scored == CartScored(s, d, cart, candidates[..i], log1p)
    {
      var p := candidates[i];
      assert candidates[..i + 1][..i] == candidates[..i];
      if p.id in productScores {
        scored := scored + [Scored(productScores[p.id], p)];
      }
    }
    assert candidates[..|candidates|] == candidates;
    var sorted := SortDesc(scored);
    if diversify {
      r := DiversifyRecommendations(Items(sorted), limit);
    } else {
      r := Items(Take(sorted, limit));
    }
  }

  /**
   * Without diversification the cart recommendations are candidates outside
   * the cart with a positive total, at most `limit`, in non-increasing total
   * order, and every qualifying candidate when they all fit.
   */
  lemma CartRecommendationsRanked(s: Settings, d: AssociationData, cart: seq<int>, candidates: seq<Product>,
                                  limit: nat, log1p: nat -> real)
    ensures var r := TopItems(CartScored(s, d, cart, candidates, log1p), limit);
      && |r| <= limit
      && (forall p :: p in r ==> p in candidates && p.id !in cart && CartScore(s, d, cart, p.id, log1p) > 0.0)
      && (forall i, j :: 0 <= i < j < |r| ==>
            CartScore(s, d, cart, r[i].id, log1p) >= CartScore(s, d, cart, r[j].id, log1p))
  {
    var scored := CartScored(s, d, cart, candidates, log1p);
    TopItemsRanked(scored, limit, (p: Product) => CartScore(s, d, cart, p.id, log1p));
    forall p | p in Items(scored) ensures p in candidates && p.id !in cart && CartScore(s, d, cart, p.id, log1p) > 0.0 {
      var k :| 0 <= k < |scored| && Items(scored)[k] == p;
    }
  }

  /** When at most `limit` candidates qualify, every one of them is recommended. */
  lemma CartRecommendationsComplete(s: Settings, d: AssociationData, cart: seq<int>, candidates: seq<Product>,
                                    limit: nat, log1p: nat -> real, p: Product)
    requires |CartScored(s, d, cart, candidates, log1p)| <= limit
    requires p in candidates && p.id !in cart && CartScore(s, d, cart, p.id, log1p) > 0.0
    ensures p in TopItems(CartScored(s, d, cart, candidates, log1p), limit)
  {
    var scored := CartScored(s, d, cart, candidates, log1p);
    CartScoredComplete(s, d, cart, candidates, log1p, p);
    TopItemsRanked(scored, limit, (q: Product) => CartScore(s, d, cart, q.id, log1p));
  }

  // ---------------------------------------------------------------------
  // get_complementary_products

  /** `scored_products` before the sort: other candidates with a positive score. */
  function ComplementaryScored(s: Settings, d: AssociationData, productId: int, candidates: seq<Product>,
                               log1p: nat -> real): (r: seq<Scored<Product>>)
    ensures forall i :: 0 <= i < |r| ==>
      && r[i].item in candidates
      && r[i].item.id != productId
      && r[i].score == AssociationScore(s, productId, r[i].item.id, d, log1p)
      && r[i].score > 0.0
  {
    if candidates == [] then []
    else
      var p := candidates[|candidates| - 1];
      var score := AssociationScore(s, productId, p.id, d, log1p);
      ComplementaryScored(s, d, productId, candidates[..|candidates| - 1], log1p)
        + (if p.id != productId && score > 0.0 then [Scored(score, p)] else [])
  }

  /** `get_complementary_products` */
  method GetComplementaryProducts(s: Settings, d: AssociationData, productId: int, candidates: seq<Product>,
                                  limit: nat, log1p: nat -> real) returns (r: seq<Product>)
    ensures r == TopItems(ComplementaryScored(s, d, productId, candidates, log1p), limit)
  {
    var scored: seq<Scored<Product>> := [];
    for i := 0 to |candidates|
      invariant scored == ComplementaryScored(s, d, productId, candidates[..i], log1p)
    {
      var p := candidates[i];
      assert candidates[..i + 1][..i] == candidates[..i];
      if p.id != productId {
        var score := AssociationScore(s, productId, p.id, d, log1p);
        if score > 0.0 {
          scored := scored + [Scored(score, p)];
        }
      }
    }
    assert candidates[..|candidates|] == candidates;
    r := Items(Take(SortDesc(scored), limit));
  }

  /**
   * Complementary products never include the product itself, all score
   * positively against it, number at most `limit` and come best first.
   */
  lemma ComplementaryRanked(s: Settings, d: AssociationData, productId: int, candidates: seq<Product>,
                            limit: nat, log1p: nat -> real)
    ensures var r := TopItems(ComplementaryScored(s, d, productId, candidates, log1p), limit);
      && |r| <= limit
      && (forall p :: p in r ==>
            p in candidates && p.id != productId && AssociationScore(s, productId, p.id, d, log1p) > 0.0)
      && (forall i, j :: 0 <= i < j < |r| ==>
            AssociationScore(s, productId, r[i].id, d, log1p) >= AssociationScore(s, productId, r[j].id, d, log1p))
  {
    var scored := ComplementaryScored(s, d, productId, candidates, log1p);
    TopItemsRanked(scored, limit, (p: Product) => AssociationScore(s, productId, p.id, d, log1p));
    forall p | p in Items(scored)
      ensures p in candidates && p.id != productId && AssociationScore(s, productId, p.id, d, log1p) > 0.0
    {
      var k :| 0 <= k < |scored| && Items(scored)[k] == p;
    }
  }

  // ---------------------------------------------------------------------
  // get_abandoned_cart_recovery

  /**
   * `purchase_history[-5:]`. The history comes newest first, so these are
   * the five oldest purchases.
   */
  function LastFive(history: seq<int>): (r: seq<int>)
    ensures |r| == Min(5, |history|)
    ensures r == history[|history| - |r|..]
  {
    if |history| <= 5 then history else history[|history| - 5..]
  }

  /** Purchase dates newest first, the order `_get_user_purchase_history` returns. */
  predicate NewestFirst(dates: seq<int>) {
    forall i, j :: 0 <= i < j < |dates| ==> dates[i] >= dates[j]
  }

  /**
   * As written, the slice keeps the oldest purchases: past five purchases
   * of distinct products, the most recent one is not among them, and every
   * purchase it leaves out is at least as recent as every one it keeps.
   */
  lemma LastFiveMissesNewest(history: seq<int>, dates: seq<int>)
    requires Distinct(history) && |history| > 5
    requires |dates| == |history| && NewestFirst(dates)
    ensures history[0] !in LastFive(history)
    ensures forall i, j :: 0 <= i < |history| - 5 <= j < |history| ==> dates[i] >= dates[j]
  {
  }

  /** `purchase_history[:5]`: the five most recent purchases. */
  function RecentFive(history: seq<int>): (r: seq<int>)
    ensures |r| == Min(5, |history|)
    ensures r <= history
  {
    Take(history, 5)
  }

  /**
   * The recent slice keeps the newest purchase, and every purchase it keeps
   * is at least as recent as every one it leaves out.
   */
  lemma RecentFiveNewest(history: seq<int>, dates: seq<int>)
    requires |dates| == |history| && NewestFirst(dates)
    ensures |history| > 0 ==> history[0] in RecentFive(history)
    ensures forall i, j :: 0 <= i < |RecentFive(history)| <= j < |history| ==> dates[i] >= dates[j]
  {
    if |history| > 0 {
      assert RecentFive(history)[0] == history[0];
    }
  }

  /** Abandoned items count one and a half times, the history items once. */
  function RecoveryScore(s: Settings, d: AssociationData, abandoned: seq<int>, history: seq<int>, id: int,
                         log1p: nat -> real): real
  {
    AnchorScore(s, d, abandoned, id, 1.5, log1p) + AnchorScore(s, d, LastFive(history), id, 1.0, log1p)
  }

  /** The ids of the candidates that get a recovery score. */
  function RecoveringIds(s: Settings, d: AssociationData, abandoned: seq<int>, history: seq<int>,
                         candidates: seq<Product>, log1p: nat -> real): set<int>
  {
    set p | p in candidates && Recovers(s, d, abandoned, history, p.id, log1p) :: p.id
  }

  /** The candidates that get a recovery score, in input order. */
  function RecoveryCandidates(s: Settings, d: AssociationData, abandoned: seq<int>, history: seq<int>,
                              candidates: seq<Product>, log1p: nat -> real): (r: seq<Product>)
    ensures |r| <= |candidates|
  {
    Kept(candidates, RecoveringIds(s, d, abandoned, history, candidates, log1p))
  }

  /** The recovery candidates are the given products that get a recovery score. */
  lemma RecoveryCandidatesMembers(s: Settings, d: AssociationData, abandoned: seq<int>, history: seq<int>,
                                  candidates: seq<Product>, log1p: nat -> real)
    ensures forall p :: p in RecoveryCandidates(s, d, abandoned, history, candidates, log1p)
                    <==> p in candidates && Recovers(s, d, abandoned, history, p.id, log1p)
  {
    KeptMembers(candidates, RecoveringIds(s, d, abandoned, history, candidates, log1p));
  }

  /** The products whose id is in `ids`, in order. */
  function Kept(candidates: seq<Product>, ids: set<int>): (r: seq<Product>)
    ensures |r| <= |candidates|
  {
    if candidates == [] then []
    else
      var p := candidates[|candidates| - 1];
      Kept(candidates[..|candidates| - 1], ids) + (if p.id in ids then [p] else [])
  }

  lemma {:induction false} KeptMembers(candidates: seq<Product>, ids: set<int>)
    ensures forall p :: p in Kept(candidates, ids) <==> p in candidates && p.id in ids
  {
    if candidates != [] {
      var n := |candidates| - 1;
      KeptMembers(candidates[..n], ids);
      assert candidates == candidates[..n] + [candidates[n]];
    }
  }

  /** Two id sets that agree on the candidates keep the same products. */
  lemma {:induction false} KeptAgree(candidates: seq<Product>, ids1: set<int>, ids2: set<int>)
    requires forall i :: 0 <= i < |candidates| ==> (candidates[i].id in ids1 <==> candidates[i].id in ids2)
    ensures Kept(candidates, ids1) == Kept(candidates, ids2)
  {
    if candidates != [] {
      var n := |candidates| - 1;
      assert forall i :: 0 <= i < n ==> candidates[..n][i] == candidates[i];
      KeptAgree(candidates[..n], ids1, ids2);
      assert candidates[n].id in ids1 <==> candidates[n].id in ids2;
    }
  }

  /** Keeping the ids that recover is keeping the recovery candidates. */
  lemma KeptRecovery(s: Settings, d: AssociationData, abandoned: seq<int>, history: seq<int>,
                     candidates: seq<Product>, log1p: nat -> real, ids: set<int>)
    requires forall i :: 0 <= i < |candidates| ==>
      (candidates[i].id in ids <==> Recovers(s, d, abandoned, history, candidates[i].id, log1p))
    ensures Kept(candidates, ids) == RecoveryCandidates(s, d, abandoned, history, candidates, log1p)
  {
    var recovering := RecoveringIds(s, d, abandoned, history, candidates, log1p);
    forall i | 0 <= i < |candidates| ensures candidates[i].id in ids <==> candidates[i].id in recovering {
      if Recovers(s, d, abandoned, history, candidates[i].id, log1p) {
        assert candidates[i] in candidates;
      }
    }
    KeptAgree(candidates, ids, recovering);
  }

  /** The recovery candidates paired with their own scores. */
  function RecoveryScored(s: Settings, d: AssociationData, abandoned: seq<int>, history: seq<int>,
                          candidates: seq<Product>, log1p: nat -> real): (r: seq<Scored<Product>>)
    ensures Items(r) == RecoveryCandidates(s, d, abandoned, history, candidates, log1p)
    ensures forall i :: 0 <= i < |r| ==> r[i].score == RecoveryScore(s, d, abandoned, history, r[i].item.id, log1p)
  {
    var c := RecoveryCandidates(s, d, abandoned, history, candidates, log1p);
    seq(|c|, i requires 0 <= i < |c| => Scored(RecoveryScore(s, d, abandoned, history, c[i].id, log1p), c[i]))
  }

  /** A list of the recovery candidates, each with its own score, is the one above. */
  lemma RecoveryScoredUnique(s: Settings, d: AssociationData, abandoned: seq<int>, history: seq<int>,
                             candidates: seq<Product>, log1p: nat -> real, scored: seq<Scored<Product>>)
    requires Items(scored) == RecoveryCandidates(s, d, abandoned, history, candidates, log1p)
    requires forall i :: 0 <= i < |scored| ==>
      scored[i].score == RecoveryScore(s, d, abandoned, history, scored[i].item.id, log1p)
    ensures scored == RecoveryScored(s, d, abandoned, history, candidates, log1p)
  {
    var r := RecoveryScored(s, d, abandoned, history, candidates, log1p);
    assert |scored| == |r|;
    forall i | 0 <= i < |r| ensures scored[i] == r[i] {
      assert scored[i].item == Items(scored)[i] == Items(r)[i] == r[i].item;
    }
  }

  /** Whether a candidate gets a recovery score. */
  predicate Recovers(s: Settings, d: AssociationData, abandoned: seq<int>, history: seq<int>, id: int,
                     log1p: nat -> real)
  {
    id !in abandoned && id !in history && RecoveryScore(s, d, abandoned, history, id, log1p) > 0.0
  }

  /** The scoring loop of the recovery: per-product scores, and the score left over from the last product. */
  method ScoreRecovery(s: Settings, d: AssociationData, abandoned: seq<int>, history: seq<int>,
                       candidates: seq<Product>, log1p: nat -> real)
    returns (productScores: map<int, real>, last: real)
    ensures forall i :: 0 <= i < |candidates| ==>
      (candidates[i].id in productScores <==> Recovers(s, d, abandoned, history, candidates[i].id, log1p))
    ensures forall id :: id in productScores ==> productScores[id] == RecoveryScore(s, d, abandoned, history, id, log1p)
  {
    productScores := map[];
    last := 0.0;
    var recent := LastFive(history);
    for i := 0 to |candidates|
      invariant forall j :: 0 <= j < i ==>
        (candidates[j].id in productScores <==> Recovers(s, d, abandoned, history, candidates[j].id, log1p))
      invariant forall id :: id in productScores ==>
        Recovers(s, d, abandoned, history, id, log1p) && productScores[id] == RecoveryScore(s, d, abandoned, history, id, log1p)
    {
      var p := candidates[i];
      if p.id !in abandoned && p.id !in history {
        var fromAbandoned := SumAnchorScores(s, d, abandoned, p.id, 1.5, log1p);
        var fromHistory := SumAnchorScores(s, d, recent, p.id, 1.0, log1p);
        last := fromAbandoned + fromHistory;
        if last > 0.0 {
          productScores := productScores[p.id := last];
        }
      }
    }
  }

  /**
   * `get_abandoned_cart_recovery` as written: the list it sorts pairs every
   * product with the same number, the score variable left over from the
   * scoring loop, so the stable sort keeps input order and the result is
   * the first `limit` qualifying candidates.
   */
  method GetAbandonedCartRecovery(s: Settings, d: AssociationData, abandoned: seq<int>, history: seq<int>,
                                  candidates: seq<Product>, limit: nat, log1p: nat -> real)
    returns (r: seq<Product>)
    ensures r == Take(RecoveryCandidates(s, d, abandoned, history, candidates, log1p), limit)
  {
    var productScores, last := ScoreRecovery(s, d, abandoned, history, candidates, log1p);
    var scored := StampRecovered(s, d, abandoned, history, candidates, log1p, productScores, last);
    SortDescConstantKey(scored, last);
    r := Items(Take(SortDesc(scored), limit));
    ItemsTake(scored, limit);
  }

  /** The list the recovery sorts: each product with a score in the map, paired with `last`. */
  method StampRecovered(s: Settings, d: AssociationData, abandoned: seq<int>, history: seq<int>,
                        candidates: seq<Product>, log1p: nat -> real, productScores: map<int, real>, last: real)
    returns (scored: seq<Scored<Product>>)
    requires forall i :: 0 <= i < |candidates| ==>
      (candidates[i].id in productScores <==> Recovers(s, d, abandoned, history, candidates[i].id, log1p))
    ensures Items(scored) == RecoveryCandidates(s, d, abandoned, history, candidates, log1p)
    ensures forall j :: 0 <= j < |scored| ==> scored[j].score == last
  {
    scored := [];
    for i := 0 to |candidates|
      invariant Items(scored) == Kept(candidates[..i], productScores.Keys)
      invariant forall j :: 0 <= j < |scored| ==> scored[j].score == last
    {
      var p := candidates[i];
      assert candidates[..i + 1][..i] == candidates[..i];
      if p.id in productScores {
        ItemsSnoc(scored, Scored(last, p));
        scored := scored + [Scored(last, p)];
      }
    }
    assert candidates[..|candidates|] == candidates;
    KeptRecovery(s, d, abandoned, history, candidates, log1p, productScores.Keys);
  }

  /** The list the ranked recovery sorts: each product with a score in the map, paired with that score. */
  method ScoreRecovered(s: Settings, d: AssociationData, abandoned: seq<int>, history: seq<int>,
                        candidates: seq<Product>, log1p: nat -> real, productScores: map<int, real>)
    returns (scored: seq<Scored<Product>>)
    requires forall i :: 0 <= i < |candidates| ==>
      (candidates[i].id in productScores <==> Recovers(s, d, abandoned, history, candidates[i].id, log1p))
    requires forall id :: id in productScores ==> productScores[id] == RecoveryScore(s, d, abandoned, history, id, log1p)
    ensures Items(scored) == RecoveryCandidates(s, d, abandoned, history, candidates, log1p)
    ensures forall j :: 0 <= j < |scored| ==>
      scored[j].score == RecoveryScore(s, d, abandoned, history, scored[j].item.id, log1p)
  {
    scored := [];
    for i := 0 to |candidates|
      invariant Items(scored) == Kept(candidates[..i], productScores.Keys)
      invariant forall j :: 0 <= j < |scored| ==>
        scored[j].item.id in productScores && scored[j].score == productScores[scored[j].item.id]
    {
      var p := candidates[i];
      assert candidates[..i + 1][..i] == candidates[..i];
      if p.id in productScores {
        ItemsSnoc(scored, Scored(productScores[p.id], p));
        scored := scored + [Scored(productScores[p.id], p)];
      }
    }
    assert candidates[..|candidates|] == candidates;
    KeptRecovery(s, d, abandoned, history, candidates, log1p, productScores.Keys);
  }

  lemma ItemsSnoc<T>(s: seq<Scored<T>>, x: Scored<T>)
    ensures Items(s + [x]) == Items(s) + [x.item]
  {
    assert (s + [x])[..|s|] == s;
  }

  lemma ItemsTake<T>(s: seq<Scored<T>>, n: nat)
    ensures Items(Take(s, n)) == Take(Items(s), n)
  {
  }

  /** Every product paired with the one key `k`. */
  function Stamp(ps: seq<Product>, k: real): (r: seq<Scored<Product>>)
    ensures |r| == |ps|
    ensures Items(r) == ps
    ensures forall i :: 0 <= i < |r| ==> r[i].score == k
  {
    seq(|ps|, i requires 0 <= i < |ps| => Scored(k, ps[i]))
  }

  /** The recovery as evidently intended: each product ranked by its own score. */
  method GetAbandonedCartRecoveryRanked(s: Settings, d: AssociationData, abandoned: seq<int>, history: seq<int>,
                                        candidates: seq<Product>, limit: nat, log1p: nat -> real)
    returns (r: seq<Product>)
    ensures r == TopItems(RecoveryScored(s, d, abandoned, history, candidates, log1p), limit)
  {
    var productScores, _ := ScoreRecovery(s, d, abandoned, history, candidates, log1p);
    var scored := ScoreRecovered(s, d, abandoned, history, candidates, log1p, productScores);
    RecoveryScoredUnique(s, d, abandoned, history, candidates, log1p, scored);
    r := Items(Take(SortDesc(scored), limit));
  }

  /**
   * Two qualifying candidates, the second scoring higher: the recovery as
   * written lists the lower-scoring one first, the ranked recovery the
   * higher-scoring one.
   */
  lemma RecoveryIgnoresScores(s: Settings, d: AssociationData, abandoned: seq<int>, history: seq<int>,
                              p1: Product, p2: Product, log1p: nat -> real)
    requires Recovers(s, d, abandoned, history, p1.id, log1p)
    requires p2.id !in abandoned && p2.id !in history
    requires RecoveryScore(s, d, abandoned, history, p1.id, log1p) < RecoveryScore(s, d, abandoned, history, p2.id, log1p)
    ensures Take(RecoveryCandidates(s, d, abandoned, history, [p1, p2], log1p), 2) == [p1, p2]
    ensures TopItems(RecoveryScored(s, d, abandoned, history, [p1, p2], log1p), 2) == [p2, p1]
  {
    var x := Scored(RecoveryScore(s, d, abandoned, history, p1.id, log1p), p1);
    var y := Scored(RecoveryScore(s, d, abandoned, history, p2.id, log1p), p2);
    RecoveryScoredPair(s, d, abandoned, history, p1, p2, log1p);
    assert Items([x, y]) == [p1, p2];
    SortPair(x, y);
  }

  lemma RecoveryScoredPair(s: Settings, d: AssociationData, abandoned: seq<int>, history: seq<int>,
                           p1: Product, p2: Product, log1p: nat -> real)
    requires Recovers(s, d, abandoned, history, p1.id, log1p) && Recovers(s, d, abandoned, history, p2.id, log1p)
    ensures RecoveryCandidates(s, d, abandoned, history, [p1, p2], log1p) == [p1, p2]
    ensures RecoveryScored(s, d, abandoned, history, [p1, p2], log1p)
         == [Scored(RecoveryScore(s, d, abandoned, history, p1.id, log1p), p1),
             Scored(RecoveryScore(s, d, abandoned, history, p2.id, log1p), p2)]
  {
    var ids := RecoveringIds(s, d, abandoned, history, [p1, p2], log1p);
    assert p1 in [p1, p2] && p2 in [p1, p2];
    assert p1.id in ids && p2.id in ids;
    assert [p1, p2][..1] == [p1];
    assert [p1][..0] == [];
    assert Kept([p1], ids) == [p1];
  }

  // ---------------------------------------------------------------------
  // _diversify_recommendations

  function Categories(s: seq<Product>): set<Option<string>> {
    set p | p in s :: p.category
  }

  /** The products that come first in their category, in input order. */
  function Leaders(s: seq<Product>): (r: seq<Product>)
    ensures forall p :: p in r ==> p in s
    ensures Categories(r) == Categories(s)
    ensures forall i, j :: 0 <= i < j < |r| ==> r[i].category != r[j].category
    ensures |r| <= |s|
  {
    if s == [] then []
    else
      var init := s[..|s| - 1];
      var p := s[|s| - 1];
      assert Categories(s) == Categories(init) + {p.category} by {
        assert s == init + [p];
      }
      Leaders(init) + (if p.category in Categories(init) then [] else [p])
  }

  /** `[p for p in s if p not in f]` */
  function Remove(s: seq<Product>, f: seq<Product>): (r: seq<Product>)
    ensures forall p :: p in r <==> p in s && p !in f
  {
    if s == [] then []
    else
      var p := s[|s| - 1];
      Remove(s[..|s| - 1], f) + (if p in f then [] else [p])
  }

  /** First occurrences only, in order. */
  function Unique(s: seq<Product>): (r: seq<Product>)
    ensures forall p :: p in r <==> p in s
    ensures Distinct(r)
  {
    if s == [] then []
    else
      var init := s[..|s| - 1];
      var p := s[|s| - 1];
      Unique(init) + (if p in init then [] else [p])
  }

  /**
   * The first pass keeps the leading product of each category while room is
   * left; the second fills the remaining room with the products not yet
   * taken, in order.
   */
  function Diversified(products: seq<Product>, limit: nat): seq<Product> {
    Filled(products, Take(Leaders(products), limit), limit)
  }

  /** `first` followed by the products not in it, first occurrences in order, up to `limit` in all. */
  function Filled(products: seq<Product>, first: seq<Product>, limit: nat): seq<Product>
    requires |first| <= limit
  {
    first + Take(Unique(Remove(products, first)), limit - |first|)
  }

  /** The first pass: the leading product of each category, while room is left. */
  method LeadersPass(products: seq<Product>, limit: nat) returns (diversified: seq<Product>)
    ensures diversified == Take(Leaders(products), limit)
  {
    diversified := [];
    var categoriesSeen: set<Option<string>> := {};
    for i := 0 to |products|
      invariant Led(products, i, diversified, categoriesSeen, limit)
    {
      var p := products[i];
      LedStep(products, i, diversified, categoriesSeen, limit);
      if p.category !in categoriesSeen && |diversified| < limit {
        diversified := diversified + [p];
        categoriesSeen := categoriesSeen + {p.category};
      }
    }
    assert products[..|products|] == products;
  }

  /** The state of the first pass after the first `i` products. */
  ghost predicate Led(products: seq<Product>, i: nat, diversified: seq<Product>, seen: set<Option<string>>, limit: nat)
    requires i <= |products|
  {
    diversified == Take(Leaders(products[..i]), limit) &&
    seen == Categories(diversified) &&
    (|diversified| < limit ==> diversified == Leaders(products[..i]))
  }

  lemma LedStep(products: seq<Product>, i: nat, diversified: seq<Product>, seen: set<Option<string>>, limit: nat)
    requires i < |products| && Led(products, i, diversified, seen, limit)
    ensures var p := products[i];
      var grow := p.category !in seen && |diversified| < limit;
      Led(products, i + 1, if grow then diversified + [p] else diversified,
          if grow then seen + {p.category} else seen, limit)
  {
    var p := products[i];
    var leaders := Leaders(products[..i]);
    LeadersStep(products, i);
    if |diversified| < limit {
      if p.category !in seen {
        TakeGrow(leaders, [p], limit);
        assert Categories(leaders + [p]) == Categories(leaders) + {p.category};
      }
    } else {
      TakeGrow(leaders, if p.category in Categories(products[..i]) then [] else [p], limit);
    }
  }

  lemma LeadersStep(products: seq<Product>, i: nat)
    requires i < |products|
    ensures Leaders(products[..i + 1])
         == Leaders(products[..i]) + (if products[i].category in Categories(products[..i]) then [] else [products[i]])
  {
    assert products[..i + 1][..i] == products[..i];
  }

  /** The second pass: the products not taken yet, in order, while room is left. */
  method FillPass(products: seq<Product>, first: seq<Product>, limit: nat) returns (diversified: seq<Product>)
    requires |first| <= limit
    ensures diversified == Filled(products, first, limit)
  {
    diversified := first;
    for i := 0 to |products|
      invariant diversified == first + Take(Unique(Remove(products[..i], first)), limit - |first|)
    {
      var p := products[i];
      FillStep(products, first, i);
      FillAdvance(first, Unique(Remove(products[..i], first)), p, limit - |first|);
      if p !in diversified && |diversified| < limit {
        diversified := diversified + [p];
      }
    }
    assert products[..|products|] == products;
  }

  /** One step of the second pass, on the not-yet-taken products `u` seen so far. */
  lemma FillAdvance(first: seq<Product>, u: seq<Product>, p: Product, room: nat)
    ensures var taken := first + Take(u, room);
      var grow := if p in first || p in u then [] else [p];
      (if p !in taken && |taken| < |first| + room then taken + [p] else taken) == first + Take(u + grow, room)
  {
    var grow := if p in first || p in u then [] else [p];
    TakeGrow(u, grow, room);
    if |Take(u, room)| < room {
      assert Take(u, room) == u;
      if p !in first + u {
        assert first + u + [p] == first + (u + [p]);
      }
    }
  }

  lemma FillStep(products: seq<Product>, first: seq<Product>, i: nat)
    requires i < |products|
    ensures var p := products[i];
      Unique(Remove(products[..i + 1], first))
      == Unique(Remove(products[..i], first)) + (if p in first || p in Unique(Remove(products[..i], first)) then [] else [p])
  {
    var p := products[i];
    var x := Remove(products[..i], first);
    assert products[..i + 1] == products[..i] + [p];
    RemoveSnoc(products[..i], p, first);
    if p in first {
      assert Remove(products[..i + 1], first) == x;
    } else {
      assert Remove(products[..i + 1], first) == x + [p];
      UniqueSnoc(x, p);
      assert p in x <==> p in Unique(x);
    }
  }

  lemma RemoveSnoc(s: seq<Product>, p: Product, f: seq<Product>)
    ensures Remove(s + [p], f) == Remove(s, f) + (if p in f then [] else [p])
  {
    assert (s + [p])[..|s|] == s;
  }

  lemma UniqueSnoc(s: seq<Product>, p: Product)
    ensures Unique(s + [p]) == Unique(s) + (if p in s then [] else [p])
  {
    assert (s + [p])[..|s|] == s;
  }

  /** A list whose categories are pairwise different has as many categories as entries. */
  lemma {:induction false} CategoriesCount(s: seq<Product>)
    requires forall i, j :: 0 <= i < j < |s| ==> s[i].category != s[j].category
    ensures |Categories(s)| == |s|
  {
    if s != [] {
      CategoriesCount(s[..|s| - 1]);
      CategoriesSnoc(s);
    }
  }

  /** The last entry of a list with pairwise different categories adds a new category. */
  lemma CategoriesSnoc(s: seq<Product>)
    requires s != []
    requires forall i, j :: 0 <= i < j < |s| ==> s[i].category != s[j].category
    ensures Categories(s) == Categories(s[..|s| - 1]) + {s[|s| - 1].category}
    ensures s[|s| - 1].category !in Categories(s[..|s| - 1])
  {
    var t, last := s[..|s| - 1], s[|s| - 1];
    assert s == t + [last];
    forall q | q in t ensures q.category != last.category {
      var k :| 0 <= k < |t| && t[k] == q;
      assert s[k] == q;
    }
  }

  /** A duplicate-free first part, filled up, repeats no product and holds only its own and the given products. */
  lemma FilledDistinct(products: seq<Product>, first: seq<Product>, limit: nat)
    requires |first| <= limit && Distinct(first)
    ensures Distinct(Filled(products, first, limit))
    ensures forall p :: p in Filled(products, first, limit) ==> p in first || p in products
  {
    var u := Unique(Remove(products, first));
    var rest := Take(u, limit - |first|);
    var r := first + rest;
    assert r == Filled(products, first, limit);
    forall i, j | 0 <= i < j < |r| ensures r[i] != r[j] {
      if i >= |first| {
        assert r[i] == u[i - |first|] && r[j] == u[j - |first|];
      } else if j >= |first| {
        assert r[j] == u[j - |first|];
        assert r[i] in first;
      }
    }
  }

  /**
   * Filling up a duplicate-free selection of the products gives as many
   * products as the limit allows, or as there are different products when
   * that is smaller; with room for all of them it holds every product.
   */
  lemma FilledLength(products: seq<Product>, first: seq<Product>, limit: nat)
    requires |first| <= limit && Distinct(first)
    requires forall p :: p in first ==> p in products
    ensures |Filled(products, first, limit)| == Min(limit, |Elems(products)|)
    ensures limit >= |Elems(products)| ==> Elems(Filled(products, first, limit)) == Elems(products)
  {
    var u := Unique(Remove(products, first));
    var rest := Take(u, limit - |first|);
    var r := first + rest;
    assert r == Filled(products, first, limit);
    FilledDistinct(products, first, limit);
    assert Elems(r) <= Elems(products);
    DistinctCardinality(r);
    SubsetCardinality(Elems(r), Elems(products));
    if |rest| < limit - |first| {
      TakeGrow(u, [], limit - |first|);
      assert u + [] == u;
      forall p | p in products ensures p in r {
        if p !in first {
          assert p in u;
        }
      }
      assert Elems(products) <= Elems(r);
      assert Elems(r) == Elems(products);
    } else {
      assert |r| == limit;
    }
    if limit >= |Elems(products)| {
      SubsetSameSize(Elems(r), Elems(products));
    }
  }

  /** The leading products of the categories, as many as fit, are different products of the input. */
  lemma FirstPassDistinct(products: seq<Product>, limit: nat)
    ensures Distinct(Take(Leaders(products), limit))
    ensures forall p :: p in Take(Leaders(products), limit) ==> p in products
  {
    var leaders := Leaders(products);
    var first := Take(leaders, limit);
    forall i, j | 0 <= i < j < |first| ensures first[i] != first[j] {
      assert first[i] == leaders[i] && first[j] == leaders[j];
    }
  }

  /** The diversified list repeats no product and holds only given products. */
  lemma DiversifiedDistinct(products: seq<Product>, limit: nat)
    ensures Distinct(Diversified(products, limit))
    ensures forall p :: p in Diversified(products, limit) ==> p in products
  {
    FirstPassDistinct(products, limit);
    FilledDistinct(products, Take(Leaders(products), limit), limit);
  }

  /**
   * The diversified list is as long as the limit allows, or as the number of
   * different products when that is smaller; with room for all of them it
   * holds every given product.
   */
  lemma DiversifiedLength(products: seq<Product>, limit: nat)
    ensures |Diversified(products, limit)| == Min(limit, |Elems(products)|)
    ensures limit >= |Elems(products)| ==> Elems(Diversified(products, limit)) == Elems(products)
  {
    FirstPassDistinct(products, limit);
    FilledLength(products, Take(Leaders(products), limit), limit);
  }

  /** With room for one product per category, every category is shown. */
  lemma DiversifiedCategories(products: seq<Product>, limit: nat)
    requires limit >= |Categories(products)|
    ensures Categories(Diversified(products, limit)) == Categories(products)
  {
    var leaders := Leaders(products);
    CategoriesCount(leaders);
    var r := Diversified(products, limit);
    assert Take(leaders, limit) == leaders;
    assert r[..|leaders|] == leaders;
    DiversifiedDistinct(products, limit);
    assert Categories(leaders) <= Categories(r);
  }

  /** `_diversify_recommendations` */
  method DiversifyRecommendations(products: seq<Product>, limit: nat) returns (diversified: seq<Product>)
    ensures diversified == Diversified(products, limit)
  {
    var first := LeadersPass(products, limit);
    diversified := FillPass(products, first, limit);
  }
}
