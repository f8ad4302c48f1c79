/**
 * The neighbour-based collaborative filter (`AdvancedNeighborsRecommender`):
 * weighted user profiles, cosine similarity on the items two users share,
 * neighbour selection, and similarity-weighted averaging of the neighbours'
 * scores. The database is a value of type `Interactions`.
 */
module Neighbors {
  import opened Common
  import opened Ranking
  import opened Vectors
  import Models

  type Product = Models.Product

  /** One row of the grouped interaction query: a product, an interaction type and how often it occurred. */
  datatype Group = Group(productId: int, kind: string, count: Pos)

  /**
   * What the queries see: the distinct (user, product) rows of the
   * interaction table, and each user's grouped interactions.
   */
  datatype Interactions = Interactions(pairs: seq<(int, int)>, groups: int -> seq<Group>)

  /** `AdvancedNeighborsRecommender(min_common_items, similarity_threshold)` */
  datatype Settings = Settings(minCommonItems: int, similarityThreshold: real)

  const Defaults := Settings(2, 0.1)

  /** How many neighbours `_find_similar_users` keeps. */
  const MaxNeighbors := 50

  // ---------------------------------------------------------------------
  // _get_user_item_interactions

  /** `weights.get(interaction_type, 1.0)` */
  function Weight(kind: string): (w: real)
    ensures w >= 1.0
    ensures kind == "purchase" ==> w == 5.0
    ensures kind !in {"view", "click", "add_to_cart", "purchase"} ==> w == 1.0
  {
    if kind == "view" then 1.0
    else if kind == "click" then 2.0
    else if kind == "add_to_cart" then 3.0
    else if kind == "purchase" then 5.0
    else 1.0
  }

  /** The products a user interacted with. */
  function Interacted(gs: seq<Group>): set<int> {
    if gs == [] then {} else Interacted(gs[..|gs| - 1]) + {gs[|gs| - 1].productId}
  }

  /** One row's contribution: `weights.get(interaction_type, 1.0) * count`. */
  function RowScore(g: Group): real {
    Weight(g.kind) * g.count as real
  }

  /** An item's weighted score: the sum of weight times count over its rows. */
  function ItemScore(gs: seq<Group>, p: int): real {
    if gs == [] then 0.0
    else
      var g := gs[|gs| - 1];
      ItemScore(gs[..|gs| - 1], p) + (if g.productId == p then RowScore(g) else 0.0)
  }

  lemma RowScorePositive(g: Group)
    ensures RowScore(g) >= 1.0
  {
    var w := Weight(g.kind);
    var c := g.count as real;
    assert w * c == w + w * (c - 1.0);
    assert w * (c - 1.0) >= 0.0;
  }

  /** A weighted score is never negative, and positive exactly for the items the user interacted with. */
  lemma {:induction false} ItemScorePositive(gs: seq<Group>, p: int)
    ensures ItemScore(gs, p) >= 0.0
    ensures ItemScore(gs, p) > 0.0 <==> p in Interacted(gs)
  {
    if gs != [] {
      var init := gs[..|gs| - 1];
      var g := gs[|gs| - 1];
      ItemScorePositive(init, p);
      RowScorePositive(g);
      assert Interacted(gs) == Interacted(init) + {g.productId} by {
        assert gs == init + [g];
      }
    }
  }

  /** The dictionary `_get_user_item_interactions` returns. */
  function Profile(gs: seq<Group>): map<int, real> {
    map p | p in Interacted(gs) :: ItemScore(gs, p)
  }

  /** Every entry of a profile is positive. */
  lemma ProfilePositive(gs: seq<Group>)
    ensures forall p :: p in Profile(gs) ==> Profile(gs)[p] > 0.0
  {
    forall p | p in Profile(gs) ensures Profile(gs)[p] > 0.0 {
      ItemScorePositive(gs, p);
    }
  }

  /** The order of the profile's keys: first appearance in the rows. */
  function ItemOrder(gs: seq<Group>): seq<int> {
    if gs == [] then []
    else
      var init := gs[..|gs| - 1];
      var g := gs[|gs| - 1];
      ItemOrder(init) + (if g.productId in ItemOrder(init) then [] else [g.productId])
  }

  /** The order lists each interacted product exactly once. */
  lemma {:induction false} ItemOrderMembers(gs: seq<Group>)
    ensures Distinct(ItemOrder(gs))
    ensures forall p :: p in ItemOrder(gs) <==> p in Interacted(gs)
  {
    if gs != [] {
      var init := gs[..|gs| - 1];
      ItemOrderMembers(init);
      DistinctSnoc(ItemOrder(init), gs[|gs| - 1].productId);
    }
  }

  /** Appending one row adds its product to the interacted set. */
  lemma InteractedSnoc(gs: seq<Group>, g: Group)
    ensures Interacted(gs + [g]) == Interacted(gs) + {g.productId}
  {
    assert (gs + [g])[..|gs|] == gs;
  }

  /** Appending one row adds its weighted count to its own product only. */
  lemma ItemScoreSnoc(gs: seq<Group>, g: Group)
    ensures forall p :: ItemScore(gs + [g], p) == ItemScore(gs, p) + (if g.productId == p then RowScore(g) else 0.0)
  {
    assert (gs + [g])[..|gs|] == gs;
  }

  lemma ItemOrderSnoc(gs: seq<Group>, g: Group)
    ensures ItemOrder(gs + [g]) == ItemOrder(gs) + (if g.productId in ItemOrder(gs) then [] else [g.productId])
  {
    assert (gs + [g])[..|gs|] == gs;
  }

  /** The loop state of `_get_user_item_interactions` after the rows `gs`. */
  ghost predicate Grouped(gs: seq<Group>, itemScores: map<int, real>, order: seq<int>) {
    && itemScores.Keys == Interacted(gs)
    && (forall p :: p in itemScores ==> itemScores[p] == ItemScore(gs, p))
    && order == ItemOrder(gs)
  }

  /** One pass of the loop keeps the state: the row's count goes to its product, which is listed once. */
  lemma GroupedStep(gs: seq<Group>, i: nat, itemScores: map<int, real>, order: seq<int>,
                    itemScores': map<int, real>, order': seq<int>)
    requires i < |gs| && Grouped(gs[..i], itemScores, order)
    requires var g := gs[i];
      && itemScores' == itemScores[g.productId := GetReal(itemScores, g.productId) + RowScore(g)]
      && order' == if g.productId in order then order else order + [g.productId]
    ensures Grouped(gs[..i + 1], itemScores', order')
  {
    var g := gs[i];
    assert gs[..i + 1] == gs[..i] + [g];
    InteractedSnoc(gs[..i], g);
    ItemOrderSnoc(gs[..i], g);
    ScoresStep(gs[..i], g, itemScores);
  }

  lemma ScoresStep(gs: seq<Group>, g: Group, itemScores: map<int, real>)
    requires itemScores.Keys == Interacted(gs)
    requires forall p :: p in itemScores ==> itemScores[p] == ItemScore(gs, p)
    ensures var itemScores' := itemScores[g.productId := GetReal(itemScores, g.productId) + RowScore(g)];
      forall p :: p in itemScores' ==> itemScores'[p] == ItemScore(gs + [g], p)
  {
    var pid := g.productId;
    ItemScoreSnoc(gs, g);
    if pid !in itemScores {
      ItemScorePositive(gs, pid);
    }
  }

  /** After all rows, the loop state is the profile. */
  lemma GroupedProfile(gs: seq<Group>, itemScores: map<int, real>, order: seq<int>)
    requires Grouped(gs, itemScores, order)
    ensures itemScores == Profile(gs)
  {
  }

  /** `_get_user_item_interactions`: the profile and the order of its keys. */
  method GetUserItemInteractions(gs: seq<Group>) returns (itemScores: map<int, real>, order: seq<int>)
    ensures itemScores == Profile(gs)
    ensures order == ItemOrder(gs)
  {
    itemScores := map[];
    order := [];
    for i := 0 to |gs|
      invariant Grouped(gs[..i], itemScores, order)
    {
      ghost var itemScoresBefore, orderBefore := itemScores, order;
      var g := gs[i];
      itemScores := itemScores[g.productId := GetReal(itemScores, g.productId) + RowScore(g)];
      if g.productId !in order {
        order := order + [g.productId];
      }
      GroupedStep(gs, i, itemScoresBefore, orderBefore, itemScores, order);
    }
    assert gs[..|gs|] == gs;
    GroupedProfile(gs, itemScores, order);
  }

  // ---------------------------------------------------------------------
  // _calculate_user_similarity

  /** The scores of `items` in a profile, a missing entry read as 0 (`items1.get(item, 0.0)`). */
  function Vector(m: map<int, real>, items: seq<int>): (r: seq<real>)
    ensures |r| == |items|
    ensures forall i :: 0 <= i < |items| ==> r[i] == GetReal(m, items[i])
  {
    seq(|items|, i requires 0 <= i < |items| => GetReal(m, items[i]))
  }

  /** The cosine of two vectors from their dot product and their squared norms. */
  function Cosine(numerator: real, sumSq1: real, sumSq2: real, sqrt: real -> real): real {
    var denominator := sqrt(sumSq1) * sqrt(sumSq2);
    if denominator == 0.0 then 0.0 else numerator / denominator
  }

  /** Cosine similarity restricted to the common items (a set, here listed without repeats). */
  function Similarity(a: map<int, real>, b: map<int, real>, common: seq<int>, sqrt: real -> real): real {
    if common == [] then 0.0
    else
      var u, v := Vector(a, common), Vector(b, common);
      Cosine(Dot(u, v), Dot(u, u), Dot(v, v), sqrt)
  }

  /** The three running sums after the first `i` common items. */
  ghost predicate Partial(u: seq<real>, v: seq<real>, i: nat, numerator: real, sumSq1: real, sumSq2: real)
    requires |u| == |v| && i <= |u|
  {
    numerator == SumReals(Times(u, v)[..i]) &&
    sumSq1 == SumReals(Times(u, u)[..i]) &&
    sumSq2 == SumReals(Times(v, v)[..i])
  }

  lemma PartialStep(u: seq<real>, v: seq<real>, i: nat, numerator: real, sumSq1: real, sumSq2: real, x: real, y: real)
    requires |u| == |v| && i < |u|
    requires Partial(u, v, i, numerator, sumSq1, sumSq2)
    requires x == u[i] && y == v[i]
    ensures Partial(u, v, i + 1, numerator + x * y, sumSq1 + x * x, sumSq2 + y * y)
  {
    SumPrefix(Times(u, v), i);
    SumPrefix(Times(u, u), i);
    SumPrefix(Times(v, v), i);
  }

  lemma PartialDone(u: seq<real>, v: seq<real>, numerator: real, sumSq1: real, sumSq2: real)
    requires |u| == |v|
    requires Partial(u, v, |u|, numerator, sumSq1, sumSq2)
    ensures numerator == Dot(u, v) && sumSq1 == Dot(u, u) && sumSq2 == Dot(v, v)
  {
    assert Times(u, v)[..|u|] == Times(u, v);
    assert Times(u, u)[..|u|] == Times(u, u);
    assert Times(v, v)[..|u|] == Times(v, v);
  }

  /** The loop of `_calculate_user_similarity`: the dot product and the two squared norms. */
  method SumProducts(items1: map<int, real>, items2: map<int, real>, common: seq<int>)
    returns (numerator: real, sumSq1: real, sumSq2: real)
    ensures var u, v := Vector(items1, common), Vector(items2, common);
      numerator == Dot(u, v) && sumSq1 == Dot(u, u) && sumSq2 == Dot(v, v)
  {
    ghost var u, v := Vector(items1, common), Vector(items2, common);
    numerator, sumSq1, sumSq2 := 0.0, 0.0, 0.0;
    for i := 0 to |common|
      invariant Partial(u, v, i, numerator, sumSq1, sumSq2)
    {
      var score1 := GetReal(items1, common[i]);
      var score2 := GetReal(items2, common[i]);
      PartialStep(u, v, i, numerator, sumSq1, sumSq2, score1, score2);
      numerator := numerator + score1 * score2;
      sumSq1 := sumSq1 + score1 * score1;
      sumSq2 := sumSq2 + score2 * score2;
    }
    PartialDone(u, v, numerator, sumSq1, sumSq2);
  }

  /** `_calculate_user_similarity` */
  method CalculateUserSimilarity(items1: map<int, real>, items2: map<int, real>, common: seq<int>,
                                 sqrt: real -> real) returns (similarity: real)
    ensures similarity == Similarity(items1, items2, common, sqrt)
  {
    if common == [] {
      return 0.0;
    }
    var numerator, sumSq1, sumSq2 := SumProducts(items1, items2, common);
    var denominator := sqrt(sumSq1) * sqrt(sumSq2);
    if denominator == 0.0 {
      similarity := 0.0;
    } else {
      similarity := numerator / denominator;
    }
    CosineOf(numerator, sumSq1, sumSq2, sqrt, denominator, similarity);
  }

  lemma CosineOf(numerator: real, sumSq1: real, sumSq2: real, sqrt: real -> real, denominator: real, similarity: real)
    requires denominator == sqrt(sumSq1) * sqrt(sumSq2)
    requires similarity == if denominator == 0.0 then 0.0 else numerator / denominator
    ensures similarity == Cosine(numerator, sumSq1, sumSq2, sqrt)
  {
  }

  predicate NonNegative(m: map<int, real>) {
    forall k :: k in m ==> m[k] >= 0.0
  }

  /** Similarity does not depend on which user comes first. */
  lemma SimilaritySymmetric(a: map<int, real>, b: map<int, real>, common: seq<int>, sqrt: real -> real)
    ensures Similarity(a, b, common, sqrt) == Similarity(b, a, common, sqrt)
  {
    if common != [] {
      var u, v := Vector(a, common), Vector(b, common);
      DotSymmetric(u, v);
      assert sqrt(Dot(u, u)) * sqrt(Dot(v, v)) == sqrt(Dot(v, v)) * sqrt(Dot(u, u));
      assert Cosine(Dot(u, v), Dot(u, u), Dot(v, v), sqrt) == Cosine(Dot(v, u), Dot(v, v), Dot(u, u), sqrt);
    }
  }

  /** A cosine whose inputs obey Cauchy–Schwarz lies between 0 and 1. */
  lemma CosineBounds(d: real, aa: real, bb: real, sqrt: real -> real)
    requires IsSqrt(sqrt)
    requires d >= 0.0 && aa >= 0.0 && bb >= 0.0
    requires d * d <= aa * bb
    ensures 0.0 <= Cosine(d, aa, bb, sqrt) <= 1.0
  {
    var sa, sb := sqrt(aa), sqrt(bb);
    if sa * sb != 0.0 {
      SqrtProduct(aa, bb, sa, sb);
      RatioAtMostOne(d, sa * sb);
    }
  }

  /** With non-negative scores the similarity lies between 0 and 1. */
  lemma SimilarityBounds(a: map<int, real>, b: map<int, real>, common: seq<int>, sqrt: real -> real)
    requires IsSqrt(sqrt)
    requires NonNegative(a) && NonNegative(b)
    ensures 0.0 <= Similarity(a, b, common, sqrt) <= 1.0
  {
    if common != [] {
      var u, v := Vector(a, common), Vector(b, common);
      forall i | 0 <= i < |u| ensures u[i] >= 0.0 && v[i] >= 0.0 {
        assert u[i] == GetReal(a, common[i]) && v[i] == GetReal(b, common[i]);
      }
      DotNonNegative(u, v);
      DotSelf(u);
      DotSelf(v);
      CauchySchwarz(u, v);
      CosineBounds(Dot(u, v), Dot(u, u), Dot(v, v), sqrt);
    }
  }

  /** The cosine of a non-zero vector with itself is 1. */
  lemma CosineSelf(aa: real, sqrt: real -> real)
    requires IsSqrt(sqrt)
    requires aa > 0.0
    ensures Cosine(aa, aa, aa, sqrt) == 1.0
  {
    var sa := sqrt(aa);
    SelfRatio(sa, aa);
  }

  lemma SelfRatio(t: real, tt: real)
    requires t * t == tt && tt > 0.0
    ensures t * t != 0.0 && tt / (t * t) == 1.0
  {
  }

  /** A user with some non-zero common score is fully similar to themself. */
  lemma SimilaritySelf(a: map<int, real>, common: seq<int>, sqrt: real -> real)
    requires IsSqrt(sqrt)
    ensures (exists i :: 0 <= i < |common| && GetReal(a, common[i]) != 0.0) ==> Similarity(a, a, common, sqrt) == 1.0
  {
    if exists i :: 0 <= i < |common| && GetReal(a, common[i]) != 0.0 {
      var u := Vector(a, common);
      var i :| 0 <= i < |common| && GetReal(a, common[i]) != 0.0;
      assert u[i] != 0.0;
      DotSelf(u);
      CosineSelf(Dot(u, u), sqrt);
    }
  }

  // ---------------------------------------------------------------------
  // _find_similar_users

  /** The rows of the common-users query: other users' (user, product) pairs on the target's items. */
  function CommonRows(pairs: seq<(int, int)>, userItems: map<int, real>, userId: int): (r: seq<(int, int)>)
    ensures forall row :: row in r <==> row in pairs && row.1 in userItems && row.0 != userId
  {
    if pairs == [] then []
    else
      var init, row := pairs[..|pairs| - 1], pairs[|pairs| - 1];
      assert pairs == init + [row];
      CommonRows(init, userItems, userId) + (if row.1 in userItems && row.0 != userId then [row] else [])
  }

  /** The keys of `user_common_items`: users in order of first appearance. */
  function Users(rows: seq<(int, int)>): (r: seq<int>)
    ensures Distinct(r)
  {
    if rows == [] then []
    else
      var init, row := rows[..|rows| - 1], rows[|rows| - 1];
      assert rows == init + [row];
      Users(init) + (if row.0 in Users(init) then [] else [row.0])
  }

  /** `user_common_items[u]`: u's products in the rows, without repeats, in order of first appearance. */
  function CommonOf(rows: seq<(int, int)>, u: int): (r: seq<int>)
    ensures Distinct(r)
  {
    if rows == [] then []
    else
      var init, row := rows[..|rows| - 1], rows[|rows| - 1];
      assert rows == init + [row];
      CommonOf(init, u) + (if row.0 == u && row.1 !in CommonOf(init, u) then [row.1] else [])
  }

  /** The users are exactly those with a row. */
  lemma {:induction false} UsersMembers(rows: seq<(int, int)>, u: int)
    ensures u in Users(rows) <==> exists p :: (u, p) in rows
  {
    if rows != [] {
      var init, row := rows[..|rows| - 1], rows[|rows| - 1];
      assert rows == init + [row];
      UsersMembers(init, u);
      assert u in Users(rows) <==> u in Users(init) || u == row.0;
      if u in Users(init) {
        var p :| (u, p) in init;
        assert (u, p) in rows;
      }
      if u == row.0 {
        assert (u, row.1) in rows;
      }
      if exists p :: (u, p) in rows {
        var p :| (u, p) in rows;
        assert (u, p) in init || (u, p) == row;
      }
    }
  }

  /** A user's common items are exactly the products of their rows. */
  lemma {:induction false} CommonOfMembers(rows: seq<(int, int)>, u: int)
    ensures forall p :: p in CommonOf(rows, u) <==> (u, p) in rows
  {
    if rows != [] {
      var init, row := rows[..|rows| - 1], rows[|rows| - 1];
      assert rows == init + [row];
      CommonOfMembers(init, u);
    }
  }

  /** A user with a common item has a row. */
  lemma {:induction false} CommonOfUser(rows: seq<(int, int)>, u: int)
    ensures CommonOf(rows, u) != [] ==> u in Users(rows)
  {
    if rows != [] {
      var init, row := rows[..|rows| - 1], rows[|rows| - 1];
      assert rows == init + [row];
      CommonOfUser(init, u);
    }
  }

  /** The grouping loop's state after the rows `rows`. */
  ghost predicate Collected(rows: seq<(int, int)>, order: seq<int>, common: map<int, seq<int>>) {
    && order == Users(rows)
    && (forall u :: u in common <==> u in order)
    && (forall u :: u in common ==> common[u] == CommonOf(rows, u))
  }

  lemma RowsSnoc(rows: seq<(int, int)>, row: (int, int))
    ensures Users(rows + [row]) == Users(rows) + (if row.0 in Users(rows) then [] else [row.0])
    ensures forall u ::
      CommonOf(rows + [row], u) == CommonOf(rows, u) + (if row.0 == u && row.1 !in CommonOf(rows, u) then [row.1] else [])
  {
    assert (rows + [row])[..|rows|] == rows;
  }

  lemma CollectedStep(rows: seq<(int, int)>, row: (int, int), order: seq<int>, common: map<int, seq<int>>)
    requires Collected(rows, order, common)
    ensures var items := if row.0 in common then common[row.0] else [];
      Collected(rows + [row], if row.0 in order then order else order + [row.0],
                common[row.0 := if row.1 in items then items else items + [row.1]])
  {
    RowsSnoc(rows, row);
    CommonOfUser(rows, row.0);
    var items := if row.0 in common then common[row.0] else [];
    assert items == CommonOf(rows, row.0);
    var order' := if row.0 in order then order else order + [row.0];
    var common' := common[row.0 := if row.1 in items then items else items + [row.1]];
    assert order' == Users(rows + [row]);
    forall u ensures u in common' <==> u in order' {
      assert u in order' <==> u in order || u == row.0;
    }
    forall u | u in common' ensures common'[u] == CommonOf(rows + [row], u) {
      if u != row.0 {
        assert common'[u] == common[u];
      }
    }
  }

  /** The grouping loop of `_find_similar_users`. */
  method GroupCommonItems(rows: seq<(int, int)>) returns (order: seq<int>, common: map<int, seq<int>>)
    ensures order == Users(rows)
    ensures forall u :: u in common <==> u in order
    ensures forall u :: u in common ==> common[u] == CommonOf(rows, u)
  {
    order, common := [], map[];
    for i := 0 to |rows|
      invariant Collected(rows[..i], order, common)
    {
      var row := rows[i];
      assert rows[..i + 1] == rows[..i] + [row];
      CollectedStep(rows[..i], row, order, common);
      var items := if row.0 in common then common[row.0] else [];
      if row.0 !in order {
        order := order + [row.0];
      }
      common := common[row.0 := if row.1 in items then items else items + [row.1]];
    }
    assert rows[..|rows|] == rows;
  }

  /** u's similarity with the target on their common items. */
  function UserSimilarity(db: Interactions, userItems: map<int, real>, rows: seq<(int, int)>, u: int, sqrt: real -> real): real {
    Similarity(userItems, Profile(db.groups(u)), CommonOf(rows, u), sqrt)
  }

  /** Whether u passes both filters of `_find_similar_users`. */
  predicate Qualifies(s: Settings, db: Interactions, userItems: map<int, real>, rows: seq<(int, int)>, u: int, sqrt: real -> real) {
    |CommonOf(rows, u)| >= s.minCommonItems && UserSimilarity(db, userItems, rows, u, sqrt) >= s.similarityThreshold
  }

  /** `similar_users` before sorting: the qualifying users among `users`, in order, with their similarity. */
  function Neighbours(s: Settings, db: Interactions, userItems: map<int, real>, rows: seq<(int, int)>,
                      users: seq<int>, sqrt: real -> real): seq<Scored<int>>
  {
    if users == [] then []
    else
      var init, u := users[..|users| - 1], users[|users| - 1];
      assert users == init + [u];
      Neighbours(s, db, userItems, rows, init, sqrt) +
        (if Qualifies(s, db, userItems, rows, u, sqrt) then [Scored(UserSimilarity(db, userItems, rows, u, sqrt), u)] else [])
  }

  lemma NeighboursSnoc(s: Settings, db: Interactions, userItems: map<int, real>, rows: seq<(int, int)>,
                       users: seq<int>, u: int, sqrt: real -> real)
    ensures Neighbours(s, db, userItems, rows, users + [u], sqrt) == Neighbours(s, db, userItems, rows, users, sqrt) +
      (if Qualifies(s, db, userItems, rows, u, sqrt) then [Scored(UserSimilarity(db, userItems, rows, u, sqrt), u)] else [])
  {
    assert (users + [u])[..|users|] == users;
  }

  /** What `_find_similar_users` returns. */
  function SimilarUsers(s: Settings, db: Interactions, userId: int, userItems: map<int, real>, sqrt: real -> real): seq<Scored<int>> {
    var rows := CommonRows(db.pairs, userItems, userId);
    Take(SortDesc(Neighbours(s, db, userItems, rows, Users(rows), sqrt)), MaxNeighbors)
  }

  /** `_find_similar_users` */
  method FindSimilarUsers(s: Settings, db: Interactions, userId: int, userItems: map<int, real>, sqrt: real -> real)
    returns (r: seq<Scored<int>>)
    ensures r == SimilarUsers(s, db, userId, userItems, sqrt)
  {
    var rows := CommonRows(db.pairs, userItems, userId);
    var order, common := GroupCommonItems(rows);
    var similar: seq<Scored<int>> := [];
    for i := 0 to |order|
      invariant similar == Neighbours(s, db, userItems, rows, order[..i], sqrt)
    {
      var u := order[i];
      assert order[..i + 1] == order[..i] + [u];
      NeighboursSnoc(s, db, userItems, rows, order[..i], u, sqrt);
      var commonProducts := common[u];
      if |commonProducts| >= s.minCommonItems {
        var otherItems, _ := GetUserItemInteractions(db.groups(u));
        var similarity := CalculateUserSimilarity(userItems, otherItems, commonProducts, sqrt);
        if similarity >= s.similarityThreshold {
          similar := similar + [Scored(similarity, u)];
        }
      }
    }
    assert order[..|order|] == order;
    r := Take(SortDesc(similar), MaxNeighbors);
  }

  lemma {:induction false} NeighboursMembers(s: Settings, db: Interactions, userItems: map<int, real>, rows: seq<(int, int)>,
                                             users: seq<int>, sqrt: real -> real, x: Scored<int>)
    ensures x in Neighbours(s, db, userItems, rows, users, sqrt) <==>
      x.item in users && Qualifies(s, db, userItems, rows, x.item, sqrt) && x.score == UserSimilarity(db, userItems, rows, x.item, sqrt)
  {
    if users != [] {
      var init, u := users[..|users| - 1], users[|users| - 1];
      assert users == init + [u];
      NeighboursMembers(s, db, userItems, rows, init, sqrt, x);
    }
  }

  /** A kept neighbour is another user who shares enough items and passes the threshold. */
  lemma NeighbourFacts(s: Settings, db: Interactions, userId: int, userItems: map<int, real>, sqrt: real -> real, x: Scored<int>)
    requires var rows := CommonRows(db.pairs, userItems, userId);
      x in Neighbours(s, db, userItems, rows, Users(rows), sqrt)
    ensures var rows := CommonRows(db.pairs, userItems, userId);
      && x.item != userId
      && (exists p :: (x.item, p) in db.pairs && p in userItems)
      && |CommonOf(rows, x.item)| >= s.minCommonItems
      && x.score >= s.similarityThreshold
      && x.score == UserSimilarity(db, userItems, rows, x.item, sqrt)
  {
    var rows := CommonRows(db.pairs, userItems, userId);
    NeighboursMembers(s, db, userItems, rows, Users(rows), sqrt, x);
    UsersMembers(rows, x.item);
    var p :| (x.item, p) in rows;
  }

  /**
   * The neighbours are at most 50 users other than the target, each sharing
   * at least `min_common_items` of the target's items and at least as
   * similar as the threshold, in non-increasing order of similarity; when
   * at most 50 users qualify, all of them are kept.
   */
  lemma SimilarUsersFacts(s: Settings, db: Interactions, userId: int, userItems: map<int, real>, sqrt: real -> real)
    ensures var r := SimilarUsers(s, db, userId, userItems, sqrt);
      |r| <= MaxNeighbors && NonIncreasing(r)
    ensures var r, rows := SimilarUsers(s, db, userId, userItems, sqrt), CommonRows(db.pairs, userItems, userId);
      forall x :: x in r ==>
        && x.item != userId
        && (exists p :: (x.item, p) in db.pairs && p in userItems)
        && |CommonOf(rows, x.item)| >= s.minCommonItems
        && x.score >= s.similarityThreshold
        && x.score == UserSimilarity(db, userItems, rows, x.item, sqrt)
    ensures var rows := CommonRows(db.pairs, userItems, userId);
      var qualifying := Neighbours(s, db, userItems, rows, Users(rows), sqrt);
      |qualifying| <= MaxNeighbors ==> forall x :: x in qualifying ==> x in SimilarUsers(s, db, userId, userItems, sqrt)
  {
    var rows := CommonRows(db.pairs, userItems, userId);
    var qualifying := Neighbours(s, db, userItems, rows, Users(rows), sqrt);
    TakeSorted(qualifying, MaxNeighbors);
    forall x | x in SimilarUsers(s, db, userId, userItems, sqrt)
      ensures x.item != userId && (exists p :: (x.item, p) in db.pairs && p in userItems)
      ensures |CommonOf(rows, x.item)| >= s.minCommonItems && x.score >= s.similarityThreshold
      ensures x.score == UserSimilarity(db, userItems, rows, x.item, sqrt)
    {
      NeighbourFacts(s, db, userId, userItems, sqrt, x);
    }
  }

  // ---------------------------------------------------------------------
  // _get_neighbor_recommendations

  /** One addition to `product_scores`: a product and its neighbour's score times the neighbour's similarity. */
  datatype Event = Event(product: int, value: real)

  /** `score * similarity` */
  function Weighted(score: real, similarity: real): real {
    score * similarity
  }

  /**
   * What one neighbour adds, walking its profile `profile` in key order
   * `items`: every product outside `excluded` (the target's items) and inside
   * `candidateIds`.
   */
  function NeighbourEvents(excluded: set<int>, candidateIds: set<int>, profile: map<int, real>,
                           items: seq<int>, similarity: real): seq<Event>
  {
    if items == [] then []
    else
      var init, p := items[..|items| - 1], items[|items| - 1];
      NeighbourEvents(excluded, candidateIds, profile, init, similarity) +
        (if p !in excluded && p in candidateIds then [Event(p, Weighted(GetReal(profile, p), similarity))] else [])
  }

  lemma NeighbourEventsSnoc(excluded: set<int>, candidateIds: set<int>, profile: map<int, real>,
                            items: seq<int>, p: int, similarity: real)
    ensures NeighbourEvents(excluded, candidateIds, profile, items + [p], similarity) ==
      NeighbourEvents(excluded, candidateIds, profile, items, similarity) +
        (if p !in excluded && p in candidateIds then [Event(p, Weighted(GetReal(profile, p), similarity))] else [])
  {
    assert (items + [p])[..|items|] == items;
  }

  /** Everything the neighbours `ns` add, neighbour by neighbour. */
  function AllEvents(db: Interactions, excluded: set<int>, candidateIds: set<int>, ns: seq<Scored<int>>): seq<Event> {
    if ns == [] then []
    else
      var init, n := ns[..|ns| - 1], ns[|ns| - 1];
      AllEvents(db, excluded, candidateIds, init) +
        NeighbourEvents(excluded, candidateIds, Profile(db.groups(n.item)), ItemOrder(db.groups(n.item)), n.score)
  }

  lemma AllEventsSnoc(db: Interactions, excluded: set<int>, candidateIds: set<int>, ns: seq<Scored<int>>, n: Scored<int>)
    ensures AllEvents(db, excluded, candidateIds, ns + [n]) == AllEvents(db, excluded, candidateIds, ns) +
      NeighbourEvents(excluded, candidateIds, Profile(db.groups(n.item)), ItemOrder(db.groups(n.item)), n.score)
  {
    assert (ns + [n])[..|ns|] == ns;
  }

  /** `product_neighbor_count[p]` read from the `defaultdict(int)`. */
  function CountOf(m: map<int, int>, p: int): int {
    if p in m then m[p] else 0
  }

  /** The two dictionaries of the aggregation, and the insertion order of `product_scores`. */
  datatype Totals = Totals(scores: map<int, real>, counts: map<int, int>, keys: seq<int>)

  /** One addition: `product_scores[p] += value` and `product_neighbor_count[p] += 1`. */
  function Add(t: Totals, e: Event): Totals {
    Totals(t.scores[e.product := GetReal(t.scores, e.product) + e.value],
           t.counts[e.product := CountOf(t.counts, e.product) + 1],
           if e.product in t.keys then t.keys else t.keys + [e.product])
  }

  /** The dictionaries after the additions `events`, starting from `t`. */
  function Tally(t: Totals, events: seq<Event>): Totals {
    if events == [] then t
    else Add(Tally(t, events[..|events| - 1]), events[|events| - 1])
  }

  /** The empty dictionaries. */
  const NoTotals := Totals(map[], map[], [])

  lemma TallySnoc(t: Totals, events: seq<Event>, e: Event)
    ensures Tally(t, events + [e]) == Add(Tally(t, events), e)
  {
    assert (events + [e])[..|events|] == events;
  }

  /** Adding two runs of additions one after the other. */
  lemma {:induction false} TallyAppend(t: Totals, a: seq<Event>, b: seq<Event>)
    ensures Tally(t, a + b) == Tally(Tally(t, a), b)
    decreases |b|
  {
    if b == [] {
      assert a + b == a;
    } else {
      var init, e := b[..|b| - 1], b[|b| - 1];
      assert a + b == (a + init) + [e];
      TallyAppend(t, a, init);
      TallySnoc(t, a + init, e);
      TallySnoc(Tally(t, a), init, e);
      assert b == init + [e];
    }
  }

  /** The inner loop's state: the dictionaries `t0` plus the additions of the neighbour's first `items`. */
  ghost predicate Aggregated(userItems: set<int>, candidateIds: set<int>, neighborItems: map<int, real>, items: seq<int>,
                             similarity: real, t0: Totals, scores: map<int, real>, counts: map<int, int>, keys: seq<int>)
  {
    Totals(scores, counts, keys) == Tally(t0, NeighbourEvents(userItems, candidateIds, neighborItems, items, similarity))
  }

  /** One pass of the inner loop keeps the aggregate: `p` is added exactly when it is an eligible candidate. */
  lemma AddNeighbourStep(userItems: set<int>, candidateIds: set<int>, neighborItems: map<int, real>, order: seq<int>,
                         j: nat, similarity: real, t0: Totals,
                         scores: map<int, real>, counts: map<int, int>, keys: seq<int>,
                         scores': map<int, real>, counts': map<int, int>, keys': seq<int>)
    requires j < |order|
    requires Aggregated(userItems, candidateIds, neighborItems, order[..j], similarity, t0, scores, counts, keys)
    requires var p := order[j];
      if p !in userItems && p in candidateIds then
        && scores' == scores[p := GetReal(scores, p) + Weighted(GetReal(neighborItems, p), similarity)]
        && counts' == counts[p := CountOf(counts, p) + 1]
        && keys' == (if p in keys then keys else keys + [p])
      else scores' == scores && counts' == counts && keys' == keys
    ensures Aggregated(userItems, candidateIds, neighborItems, order[..j + 1], similarity, t0, scores', counts', keys')
  {
    var p, items := order[j], order[..j];
    assert order[..j + 1] == items + [p];
    NeighbourEventsSnoc(userItems, candidateIds, neighborItems, items, p, similarity);
    if p !in userItems && p in candidateIds {
      TallySnoc(t0, NeighbourEvents(userItems, candidateIds, neighborItems, items, similarity),
                Event(p, Weighted(GetReal(neighborItems, p), similarity)));
    } else {
      assert NeighbourEvents(userItems, candidateIds, neighborItems, items + [p], similarity) ==
        NeighbourEvents(userItems, candidateIds, neighborItems, items, similarity);
    }
  }

  /** The inner loop of the aggregation: one neighbour's items added to the dictionaries. */
  method AddNeighbour(userItems: set<int>, candidateIds: set<int>, neighborItems: map<int, real>, order: seq<int>,
                      similarity: real, scores0: map<int, real>, counts0: map<int, int>, keys0: seq<int>)
    returns (scores: map<int, real>, counts: map<int, int>, keys: seq<int>)
    requires forall p :: p in order ==> p in neighborItems
    ensures Totals(scores, counts, keys) ==
      Tally(Totals(scores0, counts0, keys0), NeighbourEvents(userItems, candidateIds, neighborItems, order, similarity))
  {
    scores, counts, keys := scores0, counts0, keys0;
    ghost var t0 := Totals(scores0, counts0, keys0);
    for j := 0 to |order|
      invariant Aggregated(userItems, candidateIds, neighborItems, order[..j], similarity, t0, scores, counts, keys)
    {
      ghost var scoresBefore, countsBefore, keysBefore := scores, counts, keys;
      var productId := order[j];
      var score := neighborItems[productId];
      if productId !in userItems && productId in candidateIds {
        scores := scores[productId := GetReal(scores, productId) + Weighted(score, similarity)];
        counts := counts[productId := CountOf(counts, productId) + 1];
        if productId !in keys {
          keys := keys + [productId];
        }
      }
      AddNeighbourStep(userItems, candidateIds, neighborItems, order, j, similarity, t0,
                       scoresBefore, countsBefore, keysBefore, scores, counts, keys);
    }
    assert order[..|order|] == order;
  }

  /** The aggregation loops of `_get_neighbor_recommendations`. */
  method AggregateScores(db: Interactions, userItems: set<int>, candidateIds: set<int>, similarUsers: seq<Scored<int>>)
    returns (scores: map<int, real>, counts: map<int, int>, keys: seq<int>)
    ensures Totals(scores, counts, keys) == Tally(NoTotals, AllEvents(db, userItems, candidateIds, similarUsers))
    ensures Distinct(keys) && forall p :: p in keys <==> p in scores
  {
    scores, counts, keys := map[], map[], [];
    for i := 0 to |similarUsers|
      invariant Totals(scores, counts, keys) == Tally(NoTotals, AllEvents(db, userItems, candidateIds, similarUsers[..i]))
    {
      var neighborId, similarity := similarUsers[i].item, similarUsers[i].score;
      var neighborItems, order := GetUserItemInteractions(db.groups(neighborId));
      ItemOrderMembers(db.groups(neighborId));
      scores, counts, keys := AddNeighbour(userItems, candidateIds, neighborItems, order, similarity, scores, counts, keys);
      assert similarUsers[..i + 1] == similarUsers[..i] + [similarUsers[i]];
      AllEventsSnoc(db, userItems, candidateIds, similarUsers[..i], similarUsers[i]);
      TallyAppend(NoTotals, AllEvents(db, userItems, candidateIds, similarUsers[..i]),
                  NeighbourEvents(userItems, candidateIds, neighborItems, order, similarity));
    }
    assert similarUsers[..|similarUsers|] == similarUsers;
    TallyKeys(AllEvents(db, userItems, candidateIds, similarUsers));
  }

  /** `product_scores[p] /= product_neighbor_count[p]` */
  function Average(total: real, count: int): real
    requires count > 0
  {
    total / count as real
  }

  /** `product_scores` once the normalising loop has visited the keys `ks`. */
  function Normalized(t: Totals, ks: seq<int>): map<int, real> {
    map p | p in t.scores ::
      if p in ks && CountOf(t.counts, p) > 0 then Average(t.scores[p], CountOf(t.counts, p)) else t.scores[p]
  }

  lemma NormalizedStep(t: Totals, ks: seq<int>, k: int)
    requires k in t.scores && k !in ks
    ensures k in Normalized(t, ks) && Normalized(t, ks)[k] == t.scores[k]
    ensures Normalized(t, ks + [k]) ==
      if CountOf(t.counts, k) > 0 then Normalized(t, ks)[k := Average(Normalized(t, ks)[k], CountOf(t.counts, k))]
      else Normalized(t, ks)
  {
  }

  /** The normalising loop of `_get_neighbor_recommendations`, over the keys of `product_scores` in order. */
  method NormalizeScores(scores0: map<int, real>, counts: map<int, int>, keys: seq<int>) returns (scores: map<int, real>)
    requires Distinct(keys)
    requires forall p :: p in keys <==> p in scores0
    ensures scores == Normalized(Totals(scores0, counts, keys), keys)
  {
    ghost var t := Totals(scores0, counts, keys);
    scores := scores0;
    assert scores == Normalized(t, keys[..0]);
    for j := 0 to |keys|
      invariant scores == Normalized(t, keys[..j])
    {
      var productId := keys[j];
      assert keys[..j + 1] == keys[..j] + [productId];
      NormalizedStep(t, keys[..j], productId);
      if CountOf(counts, productId) > 0 {
        scores := scores[productId := Average(scores[productId], CountOf(counts, productId))];
      }
    }
    assert keys[..|keys|] == keys;
  }

  /** `scored_products` before sorting: the candidates with a score, in candidate order. */
  function CandidateScores(scores: map<int, real>, candidates: seq<Product>): seq<Scored<Product>> {
    if candidates == [] then []
    else
      var init, c := candidates[..|candidates| - 1], candidates[|candidates| - 1];
      CandidateScores(scores, init) + (if c.id in scores then [Scored(scores[c.id], c)] else [])
  }

  lemma CandidateScoresSnoc(scores: map<int, real>, candidates: seq<Product>, c: Product)
    ensures CandidateScores(scores, candidates + [c]) ==
      CandidateScores(scores, candidates) + (if c.id in scores then [Scored(scores[c.id], c)] else [])
  {
    assert (candidates + [c])[..|candidates|] == candidates;
  }

  /** The loop of `_get_neighbor_recommendations` that pairs each scored candidate with its score. */
  method ScoreCandidates(scores: map<int, real>, candidates: seq<Product>) returns (scoredProducts: seq<Scored<Product>>)
    ensures scoredProducts == CandidateScores(scores, candidates)
  {
    scoredProducts := [];
    for i := 0 to |candidates|
      invariant scoredProducts == CandidateScores(scores, candidates[..i])
    {
      var product := candidates[i];
      assert candidates[..i + 1] == candidates[..i] + [product];
      CandidateScoresSnoc(scores, candidates[..i], product);
      if product.id in scores {
        scoredProducts := scoredProducts + [Scored(scores[product.id], product)];
      }
    }
    assert candidates[..|candidates|] == candidates;
  }

  /** `candidate_ids` */
  function CandidateIds(candidates: seq<Product>): set<int> {
    set p | p in candidates :: p.id
  }

  /** The dictionaries after aggregating over the neighbours `similarUsers`. */
  function NeighbourTotals(db: Interactions, userId: int, similarUsers: seq<Scored<int>>, candidates: seq<Product>): Totals {
    Tally(NoTotals, AllEvents(db, Profile(db.groups(userId)).Keys, CandidateIds(candidates), similarUsers))
  }

  /** The normalised `product_scores`. */
  function NeighbourScores(db: Interactions, userId: int, similarUsers: seq<Scored<int>>, candidates: seq<Product>): map<int, real> {
    var t := NeighbourTotals(db, userId, similarUsers, candidates);
    Normalized(t, t.keys)
  }

  /** What `_get_neighbor_recommendations` returns. */
  function NeighborRecommendations(db: Interactions, userId: int, similarUsers: seq<Scored<int>>,
                                   candidates: seq<Product>, limit: nat): seq<Product>
  {
    TopItems(CandidateScores(NeighbourScores(db, userId, similarUsers, candidates), candidates), limit)
  }

  /** `_get_neighbor_recommendations` */
  method GetNeighborRecommendations(db: Interactions, userId: int, similarUsers: seq<Scored<int>>,
                                    candidates: seq<Product>, limit: nat) returns (r: seq<Product>)
    ensures r == NeighborRecommendations(db, userId, similarUsers, candidates, limit)
  {
    var profile, _ := GetUserItemInteractions(db.groups(userId));
    var userItems := profile.Keys;
    var candidateIds := set p | p in candidates :: p.id;
    var scores, counts, keys := AggregateScores(db, userItems, candidateIds, similarUsers);
    scores := NormalizeScores(scores, counts, keys);
    var scoredProducts := ScoreCandidates(scores, candidates);
    r := TopItems(scoredProducts, limit);
  }

  // Properties of the aggregation.

  /** The products of the additions `events`. */
  function Added(events: seq<Event>): set<int> {
    set e | e in events :: e.product
  }

  /** The keys of `product_scores` are its insertion order: duplicate-free, the same as those of the counts, and exactly the products added. */
  lemma {:induction false} TallyKeys(events: seq<Event>)
    ensures var t := Tally(NoTotals, events);
      && Distinct(t.keys)
      && (forall p :: p in t.keys <==> p in t.scores)
      && (forall p :: p in t.counts <==> p in t.scores)
      && (forall p :: p in t.scores <==> p in Added(events))
  {
    if events != [] {
      var init, e := events[..|events| - 1], events[|events| - 1];
      assert events == init + [e];
      TallyKeys(init);
      assert Added(events) == Added(init) + {e.product};
    }
  }

  /** The values added for product p, in order. */
  function ValuesOf(events: seq<Event>, p: int): seq<real> {
    if events == [] then []
    else
      var init, e := events[..|events| - 1], events[|events| - 1];
      ValuesOf(init, p) + (if e.product == p then [e.value] else [])
  }

  /** A product's entry is the sum of the values added for it, and its count is how many there were. */
  lemma {:induction false} TallyEntry(events: seq<Event>, p: int)
    ensures var t := Tally(NoTotals, events);
      && (p in t.scores <==> ValuesOf(events, p) != [])
      && GetReal(t.scores, p) == SumReals(ValuesOf(events, p))
      && CountOf(t.counts, p) == |ValuesOf(events, p)|
  {
    if events != [] {
      var init, e := events[..|events| - 1], events[|events| - 1];
      TallyEntry(init, p);
      var vs := ValuesOf(init, p);
      if e.product == p {
        assert ValuesOf(events, p) == vs + [e.value];
        assert (vs + [e.value])[..|vs|] == vs;
        assert SumReals(vs + [e.value]) == SumReals(vs) + e.value;
      } else {
        assert ValuesOf(events, p) == vs;
      }
    }
  }

  lemma {:induction false} ValuesAppend(a: seq<Event>, b: seq<Event>, p: int)
    ensures ValuesOf(a + b, p) == ValuesOf(a, p) + ValuesOf(b, p)
    decreases |b|
  {
    if b == [] {
      assert a + b == a;
    } else {
      var init, e := b[..|b| - 1], b[|b| - 1];
      assert a + b == (a + init) + [e];
      assert (a + b)[..|a + b| - 1] == a + init;
      ValuesAppend(a, init, p);
    }
  }

  /** A neighbour whose items are duplicate-free adds at most one value per product. */
  lemma {:induction false} NeighbourValues(excluded: set<int>, candidateIds: set<int>, profile: map<int, real>,
                                           items: seq<int>, similarity: real, p: int)
    requires Distinct(items)
    ensures ValuesOf(NeighbourEvents(excluded, candidateIds, profile, items, similarity), p) ==
      if p !in excluded && p in candidateIds && p in items then [Weighted(GetReal(profile, p), similarity)] else []
  {
    if items != [] {
      var init, q := items[..|items| - 1], items[|items| - 1];
      DistinctInit(items);
      NeighbourValues(excluded, candidateIds, profile, init, similarity, p);
      NeighbourValuesStep(excluded, candidateIds, profile, init, q, similarity, p);
      assert items == init + [q];
    }
  }

  lemma NeighbourValuesStep(excluded: set<int>, candidateIds: set<int>, profile: map<int, real>,
                            init: seq<int>, q: int, similarity: real, p: int)
    requires q !in init
    requires ValuesOf(NeighbourEvents(excluded, candidateIds, profile, init, similarity), p) ==
      if p !in excluded && p in candidateIds && p in init then [Weighted(GetReal(profile, p), similarity)] else []
    ensures ValuesOf(NeighbourEvents(excluded, candidateIds, profile, init + [q], similarity), p) ==
      if p !in excluded && p in candidateIds && p in init + [q] then [Weighted(GetReal(profile, p), similarity)] else []
  {
    NeighbourEventsSnoc(excluded, candidateIds, profile, init, q, similarity);
    var before := NeighbourEvents(excluded, candidateIds, profile, init, similarity);
    var added := if q !in excluded && q in candidateIds then [Event(q, Weighted(GetReal(profile, q), similarity))] else [];
    ValuesAppend(before, added, p);
    if added != [] {
      ValuesOne(added[0], p);
    }
    assert p in init + [q] <==> p in init || p == q;
  }

  lemma ValuesOne(e: Event, p: int)
    ensures ValuesOf([e], p) == if e.product == p then [e.value] else []
  {
    assert [e][..0] == [];
  }

  /**
   * The products of similarity and neighbour score for p, one per neighbour
   * in `ns` that interacted with p, in neighbour order.
   */
  function Ratings(db: Interactions, ns: seq<Scored<int>>, p: int): seq<real> {
    if ns == [] then []
    else
      var init, n := ns[..|ns| - 1], ns[|ns| - 1];
      Ratings(db, init, p) +
        (if p in Interacted(db.groups(n.item)) then [Weighted(GetReal(Profile(db.groups(n.item)), p), n.score)] else [])
  }

  /** The values added for an eligible product are its ratings; an ineligible product gets none. */
  lemma {:induction false} AllValues(db: Interactions, excluded: set<int>, candidateIds: set<int>, ns: seq<Scored<int>>, p: int)
    ensures ValuesOf(AllEvents(db, excluded, candidateIds, ns), p) ==
      if p !in excluded && p in candidateIds then Ratings(db, ns, p) else []
  {
    if ns != [] {
      var init, n := ns[..|ns| - 1], ns[|ns| - 1];
      AllValues(db, excluded, candidateIds, init, p);
      var gs := db.groups(n.item);
      ValuesAppend(AllEvents(db, excluded, candidateIds, init),
                   NeighbourEvents(excluded, candidateIds, Profile(gs), ItemOrder(gs), n.score), p);
      ItemOrderMembers(gs);
      NeighbourValues(excluded, candidateIds, Profile(gs), ItemOrder(gs), n.score, p);
    }
  }

  /**
   * A product gets a neighbour score exactly when it is a candidate, the
   * target has not interacted with it, and some neighbour has; the score is
   * the mean of similarity times neighbour score over those neighbours.
   */
  lemma NeighbourScoreIsMean(db: Interactions, userId: int, similarUsers: seq<Scored<int>>, candidates: seq<Product>, p: int)
    ensures var ratings := Ratings(db, similarUsers, p);
      p in NeighbourScores(db, userId, similarUsers, candidates) <==>
        p in CandidateIds(candidates) && p !in Interacted(db.groups(userId)) && ratings != []
    ensures var ratings := Ratings(db, similarUsers, p);
      p in NeighbourScores(db, userId, similarUsers, candidates) ==>
        ratings != [] && NeighbourScores(db, userId, similarUsers, candidates)[p] == Average(SumReals(ratings), |ratings|)
  {
    var excluded, ids := Profile(db.groups(userId)).Keys, CandidateIds(candidates);
    var events := AllEvents(db, excluded, ids, similarUsers);
    assert excluded == Interacted(db.groups(userId));
    TallyKeys(events);
    TallyEntry(events, p);
    AllValues(db, excluded, ids, similarUsers, p);
  }

  lemma {:induction false} CandidateScoresMembers(scores: map<int, real>, candidates: seq<Product>, x: Scored<Product>)
    ensures x in CandidateScores(scores, candidates) <==>
      x.item in candidates && x.item.id in scores && x.score == scores[x.item.id]
  {
    if candidates != [] {
      var init, c := candidates[..|candidates| - 1], candidates[|candidates| - 1];
      assert candidates == init + [c];
      CandidateScoresMembers(scores, init, x);
    }
  }

  /**
   * The recommendations come in non-increasing order of their neighbour
   * score, at most `limit` of them; when at most `limit` candidates have a
   * score, all of them are returned.
   */
  lemma NeighborRecommendationsRanked(db: Interactions, userId: int, similarUsers: seq<Scored<int>>,
                                      candidates: seq<Product>, limit: nat)
    ensures |NeighborRecommendations(db, userId, similarUsers, candidates, limit)| <= limit
    ensures var r, scores := NeighborRecommendations(db, userId, similarUsers, candidates, limit),
                             NeighbourScores(db, userId, similarUsers, candidates);
      forall i, j :: 0 <= i < j < |r| ==> GetReal(scores, r[i].id) >= GetReal(scores, r[j].id)
    ensures var scores := NeighbourScores(db, userId, similarUsers, candidates);
      |CandidateScores(scores, candidates)| <= limit ==>
        forall c :: c in candidates && c.id in scores ==> c in NeighborRecommendations(db, userId, similarUsers, candidates, limit)
  {
    var scores := NeighbourScores(db, userId, similarUsers, candidates);
    var s := CandidateScores(scores, candidates);
    var f := (p: Product) => GetReal(scores, p.id);
    forall i | 0 <= i < |s| ensures s[i].score == f(s[i].item) {
      CandidateScoresMembers(scores, candidates, s[i]);
    }
    TopItemsRanked(s, limit, f);
    if |s| <= limit {
      forall c | c in candidates && c.id in scores ensures c in Items(s) {
        CandidateScoresMembers(scores, candidates, Scored(scores[c.id], c));
        var k :| 0 <= k < |s| && s[k] == Scored(scores[c.id], c);
        assert Items(s)[k] == c;
      }
    }
  }

  /** Every recommendation is a candidate the target has not interacted with and some neighbour has. */
  lemma NeighborRecommendationsMembers(db: Interactions, userId: int, similarUsers: seq<Scored<int>>,
                                       candidates: seq<Product>, limit: nat)
    ensures var r := NeighborRecommendations(db, userId, similarUsers, candidates, limit);
      forall x :: x in r ==>
        x in candidates && x.id !in Interacted(db.groups(userId)) && Ratings(db, similarUsers, x.id) != []
  {
    var scores := NeighbourScores(db, userId, similarUsers, candidates);
    var s := CandidateScores(scores, candidates);
    var f := (p: Product) => GetReal(scores, p.id);
    forall i | 0 <= i < |s| ensures s[i].score == f(s[i].item) {
      CandidateScoresMembers(scores, candidates, s[i]);
    }
    TopItemsRanked(s, limit, f);
    forall x | x in TopItems(s, limit)
      ensures x in candidates && x.id !in Interacted(db.groups(userId)) && Ratings(db, similarUsers, x.id) != []
    {
      var k :| 0 <= k < |s| && Items(s)[k] == x;
      CandidateScoresMembers(scores, candidates, s[k]);
      NeighbourScoreIsMean(db, userId, similarUsers, candidates, x.id);
    }
  }

  lemma {:induction false} RatingsNonNegative(db: Interactions, ns: seq<Scored<int>>, p: int)
    requires forall i :: 0 <= i < |ns| ==> ns[i].score >= 0.0
    ensures forall i :: 0 <= i < |Ratings(db, ns, p)| ==> Ratings(db, ns, p)[i] >= 0.0
  {
    if ns != [] {
      var init, n := ns[..|ns| - 1], ns[|ns| - 1];
      RatingsNonNegative(db, init, p);
      var gs := db.groups(n.item);
      if p in Interacted(gs) {
        ProfilePositive(gs);
        MulNonNegative(GetReal(Profile(gs), p), n.score, Weighted(GetReal(Profile(gs), p), n.score));
      }
    }
  }

  lemma AverageNonNegative(total: real, count: int)
    requires total >= 0.0 && count > 0
    ensures Average(total, count) >= 0.0
  {
  }

  /** With non-negative similarities, every neighbour score is non-negative. */
  lemma NeighbourScoresNonNegative(db: Interactions, userId: int, similarUsers: seq<Scored<int>>, candidates: seq<Product>)
    requires forall i :: 0 <= i < |similarUsers| ==> similarUsers[i].score >= 0.0
    ensures var scores := NeighbourScores(db, userId, similarUsers, candidates);
      forall p :: p in scores ==> scores[p] >= 0.0
  {
    var scores := NeighbourScores(db, userId, similarUsers, candidates);
    forall p | p in scores ensures scores[p] >= 0.0 {
      NeighbourScoreIsMean(db, userId, similarUsers, candidates, p);
      RatingsNonNegative(db, similarUsers, p);
      SumNonNegative(Ratings(db, similarUsers, p));
      AverageNonNegative(SumReals(Ratings(db, similarUsers, p)), |Ratings(db, similarUsers, p)|);
    }
  }

  // ---------------------------------------------------------------------
  // get_recommendations

  /** How many items the target needs before the filter runs. */
  const MinUserItems := 3

  /** What `get_recommendations` returns. */
  function Recommendations(s: Settings, db: Interactions, userId: int, candidates: seq<Product>, limit: nat,
                           sqrt: real -> real): seq<Product>
  {
    var userItems := Profile(db.groups(userId));
    if |userItems| < MinUserItems then []
    else
      var similar := SimilarUsers(s, db, userId, userItems, sqrt);
      if similar == [] then [] else NeighborRecommendations(db, userId, similar, candidates, limit)
  }

  /** `get_recommendations` */
  method GetRecommendations(s: Settings, db: Interactions, userId: int, candidates: seq<Product>, limit: nat,
                            sqrt: real -> real) returns (r: seq<Product>)
    ensures r == Recommendations(s, db, userId, candidates, limit, sqrt)
  {
    var userItems, _ := GetUserItemInteractions(db.groups(userId));
    if |userItems| < MinUserItems {
      return [];
    }
    var similarUsers := FindSimilarUsers(s, db, userId, userItems, sqrt);
    if similarUsers == [] {
      return [];
    }
    r := GetNeighborRecommendations(db, userId, similarUsers, candidates, limit);
  }

  /**
   * No recommendations for a user with fewer than three items or without a
   * similar user; otherwise at most `limit` candidates the user has not
   * interacted with, each interacted with by one of the similar users.
   */
  lemma RecommendationsFacts(s: Settings, db: Interactions, userId: int, candidates: seq<Product>, limit: nat,
                             sqrt: real -> real)
    ensures var r := Recommendations(s, db, userId, candidates, limit, sqrt);
      |Interacted(db.groups(userId))| < MinUserItems ==> r == []
    ensures var r := Recommendations(s, db, userId, candidates, limit, sqrt);
      SimilarUsers(s, db, userId, Profile(db.groups(userId)), sqrt) == [] ==> r == []
    ensures var r := Recommendations(s, db, userId, candidates, limit, sqrt);
      |r| <= limit &&
      forall x :: x in r ==>
        && x in candidates
        && x.id !in Interacted(db.groups(userId))
        && exists n :: n in SimilarUsers(s, db, userId, Profile(db.groups(userId)), sqrt) && x.id in Interacted(db.groups(n.item))
  {
    var userItems := Profile(db.groups(userId));
    assert userItems.Keys == Interacted(db.groups(userId));
    var similar := SimilarUsers(s, db, userId, userItems, sqrt);
    var r := Recommendations(s, db, userId, candidates, limit, sqrt);
    if |userItems| >= MinUserItems && similar != [] {
      NeighborRecommendationsRanked(db, userId, similar, candidates, limit);
      NeighborRecommendationsMembers(db, userId, similar, candidates, limit);
      forall x | x in r
        ensures exists n :: n in similar && x.id in Interacted(db.groups(n.item))
      {
        RatingsFrom(db, similar, x.id);
      }
    }
  }

  /** A product with a rating was interacted with by one of the neighbours. */
  lemma {:induction false} RatingsFrom(db: Interactions, ns: seq<Scored<int>>, p: int)
    ensures Ratings(db, ns, p) != [] ==> exists n :: n in ns && p in Interacted(db.groups(n.item))
  {
    if ns != [] {
      var init, n := ns[..|ns| - 1], ns[|ns| - 1];
      assert ns == init + [n];
      RatingsFrom(db, init, p);
    }
  }
}
