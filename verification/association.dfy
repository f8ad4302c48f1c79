/**
 * The market-basket side of `ShoppingCartRecommender`: the co-occurrence
 * matrix built from order baskets (plain and with time decay), the product
 * counts, the support and confidence gates and the lift-times-log score,
 * and the support filter. Orders arrive as the product-id lists the
 * database query yields; the matrix is a map from ordered pairs of product
 * ids to counts holding only the pairs that were ever incremented, as the
 * `defaultdict` turned into a `dict` does.
 */
module Association {
  import opened Common

  type Pair = (int, int)

  /** The two constructor parameters of the recommender. */
  datatype Settings = Settings(minSupport: int, minConfidence: real)

  /** `ShoppingCartRecommender()` with its defaults. */
  const Defaults := Settings(2, 0.1)

  /** What `_get_association_data` returns. */
  datatype AssociationData = AssociationData(
    associations: map<Pair, nat>,
    counts: map<int, Pos>,
    totalOrders: nat)

  /** `m.get(k, 0)` */
  function Get<K>(m: map<K, nat>, k: K): nat {
    if k in m then m[k] else 0
  }

  // ---------------------------------------------------------------------
  // Specification of the co-occurrence count

  /**
   * Whether the inner loop, visiting `x` at an earlier position and `y` at a
   * later one, increments the entry for `(a, b)`: it increments `(x, y)` and
   * `(y, x)` when the two differ.
   */
  predicate Adds(x: int, y: int, a: int, b: int) {
    x != y && ((x == a && y == b) || (x == b && y == a))
  }

  /** Increments of `k` while visiting `o[i]` against `o[i+1..j]`. */
  function Inner(o: seq<int>, i: nat, j: nat, k: Pair): nat
    requires i < |o| && j <= |o|
    decreases j
  {
    if j <= i + 1 then 0
    else Inner(o, i, j - 1, k) + (if Adds(o[i], o[j - 1], k.0, k.1) then 1 else 0)
  }

  /** Increments of `k` from the first `n` rows of one order. */
  function Outer(o: seq<int>, n: nat, k: Pair): nat
    requires n <= |o|
  {
    if n == 0 then 0 else Outer(o, n - 1, k) + Inner(o, n - 1, |o|, k)
  }

  /** The co-occurrence count of `k` over a sequence of order baskets. */
  function CoOccurrence(orders: seq<seq<int>>, k: Pair): nat {
    if orders == [] then 0
    else
      var o := orders[|orders| - 1];
      CoOccurrence(orders[..|orders| - 1], k) + Outer(o, |o|, k)
  }

  /** Occurrences of product `p` over all baskets, repeats included. */
  function Occurrences(orders: seq<seq<int>>, p: int): nat {
    if orders == [] then 0
    else Occurrences(orders[..|orders| - 1], p) + multiset(orders[|orders| - 1])[p]
  }

  /** Number of baskets holding `p`. */
  function OrdersWith(orders: seq<seq<int>>, p: int): nat {
    if orders == [] then 0
    else OrdersWith(orders[..|orders| - 1], p) + (if p in orders[|orders| - 1] then 1 else 0)
  }

  /** Number of baskets holding both `a` and `b`. */
  function OrdersWithBoth(orders: seq<seq<int>>, a: int, b: int): nat {
    if orders == [] then 0
    else
      var o := orders[|orders| - 1];
      OrdersWithBoth(orders[..|orders| - 1], a, b) + (if a in o && b in o then 1 else 0)
  }

  // ---------------------------------------------------------------------
  // The builders

  /** One visit of the innermost loop. */
  function Visit(m: map<Pair, nat>, p: int, q: int): (r: map<Pair, nat>)
    ensures forall k :: Get(r, k) == Get(m, k) + (if Adds(p, q, k.0, k.1) then 1 else 0)
    ensures forall k :: k in r <==> k in m || Adds(p, q, k.0, k.1)
  {
    if p == q then m
    else
      var m1 := m[(p, q) := Get(m, (p, q)) + 1];
      m1[(q, p) := Get(m1, (q, p)) + 1]
  }

  /** `_build_association_matrix` */
  method BuildAssociationMatrix(orders: seq<seq<int>>) returns (m: map<Pair, nat>)
    ensures forall k :: Get(m, k) == CoOccurrence(orders, k)
    ensures forall k :: k in m <==> CoOccurrence(orders, k) > 0
  {
    m := map[];
    for n := 0 to |orders|
      invariant forall k :: Get(m, k) == CoOccurrence(orders[..n], k)
      invariant forall k :: k in m <==> Get(m, k) > 0
    {
      m := CountOrder(m, orders[n]);
      assert orders[..n + 1][..n] == orders[..n];
    }
    assert orders[..|orders|] == orders;
  }

  /** The two inner loops of the builder: every pair of positions `i < j` of one basket. */
  method CountOrder(m0: map<Pair, nat>, o: seq<int>) returns (m: map<Pair, nat>)
    requires forall k :: k in m0 <==> Get(m0, k) > 0
    ensures forall k :: Get(m, k) == Get(m0, k) + Outer(o, |o|, k)
    ensures forall k :: k in m <==> Get(m, k) > 0
  {
    m := m0;
    for i := 0 to |o|
      invariant forall k :: Get(m, k) == Get(m0, k) + Outer(o, i, k)
      invariant forall k :: k in m <==> Get(m, k) > 0
    {
      m := CountRow(m, o, i);
    }
  }

  /** The innermost loop: position `i` against every later position. */
  method CountRow(m0: map<Pair, nat>, o: seq<int>, i: nat) returns (m: map<Pair, nat>)
    requires i < |o|
    requires forall k :: k in m0 <==> Get(m0, k) > 0
    ensures forall k :: Get(m, k) == Get(m0, k) + Inner(o, i, |o|, k)
    ensures forall k :: k in m <==> Get(m, k) > 0
  {
    m := m0;
    for j := i + 1 to |o|
      invariant forall k :: Get(m, k) == Get(m0, k) + Inner(o, i, j, k)
      invariant forall k :: k in m <==> Get(m, k) > 0
    {
      m := Visit(m, o[i], o[j]);
    }
  }

  /** A basket with the date of its order, in seconds. */
  datatype DatedOrder = DatedOrder(products: seq<int>, date: int)

  /** `1.0 / (1.0 + days / 30.0)`; the division fails at exactly -30 days. */
  function DecayFactor(days: int): (r: Result<real>)
    ensures r.Err? <==> days == -30
    ensures r.Ok? && days >= 0 ==> 0.0 < r.value <= 1.0
    ensures r.Ok? && days > 0 ==> r.value < 1.0
  {
    if days == -30 then Err(ZeroDivisionError)
    else Ok(1.0 / (1.0 + days as real / 30.0))
  }

  /** Whether no order is dated exactly 30 days in the future. */
  predicate Decayable(orders: seq<DatedOrder>, now: int) {
    forall i :: 0 <= i < |orders| ==> DaysOld(now, orders[i].date) != -30
  }

  function Baskets(orders: seq<DatedOrder>): (r: seq<seq<int>>)
    ensures |r| == |orders|
    ensures forall i :: 0 <= i < |orders| ==> r[i] == orders[i].products
  {
    if orders == [] then [] else Baskets(orders[..|orders| - 1]) + [orders[|orders| - 1].products]
  }

  /** Each basket's co-occurrences, weighted by its decay factor. */
  function DecayedCoOccurrence(orders: seq<DatedOrder>, now: int, k: Pair): real
    requires Decayable(orders, now)
  {
    if orders == [] then 0.0
    else
      var o := orders[|orders| - 1];
      DecayedCoOccurrence(orders[..|orders| - 1], now, k)
        + Repeat(DecayFactor(DaysOld(now, o.date)).value, Outer(o.products, |o.products|, k))
  }

  /** One visit of the innermost loop of the decayed builder. */
  function VisitDecayed(m: map<Pair, real>, p: int, q: int, weight: real): (r: map<Pair, real>)
    ensures forall k :: GetReal(r, k) == GetReal(m, k) + (if Adds(p, q, k.0, k.1) then weight else 0.0)
    ensures forall k :: k in r <==> k in m || Adds(p, q, k.0, k.1)
  {
    if p == q then m
    else
      var m1 := m[(p, q) := GetReal(m, (p, q)) + weight];
      m1[(q, p) := GetReal(m1, (q, p)) + weight]
  }

  /** What the visits of `o[i]` against `o[i+1..j]` add to `k`, each adding `weight`. */
  function WeightedInner(o: seq<int>, i: nat, j: nat, k: Pair, weight: real): real
    requires i < |o| && j <= |o|
    decreases j
  {
    if j <= i + 1 then 0.0
    else WeightedInner(o, i, j - 1, k, weight) + (if Adds(o[i], o[j - 1], k.0, k.1) then weight else 0.0)
  }

  function WeightedOuter(o: seq<int>, n: nat, k: Pair, weight: real): real
    requires n <= |o|
  {
    if n == 0 then 0.0 else WeightedOuter(o, n - 1, k, weight) + WeightedInner(o, n - 1, |o|, k, weight)
  }

  /** `w` added `c` times over, as the builder adds a basket's factor once per visit. */
  function Repeat(w: real, c: nat): real {
    if c == 0 then 0.0 else Repeat(w, c - 1) + w
  }

  lemma {:induction false} RepeatAdd(w: real, a: nat, b: nat)
    ensures Repeat(w, a + b) == Repeat(w, a) + Repeat(w, b)
    decreases b
  {
    if b > 0 {
      RepeatAdd(w, a, b - 1);
    }
  }

  /** Adding `w` once per visit adds `w` times the number of visits. */
  lemma {:induction false} RepeatIsProduct(w: real, c: nat)
    ensures Repeat(w, c) == w * c as real
  {
    if c > 0 {
      RepeatIsProduct(w, c - 1);
      assert w * c as real == w * (c - 1) as real + w;
    }
  }

  lemma {:induction false} WeightedInnerRepeat(o: seq<int>, i: nat, j: nat, k: Pair, weight: real)
    requires i < |o| && j <= |o|
    ensures WeightedInner(o, i, j, k, weight) == Repeat(weight, Inner(o, i, j, k))
    decreases j
  {
    if j > i + 1 {
      WeightedInnerRepeat(o, i, j - 1, k, weight);
    }
  }

  lemma {:induction false} WeightedOuterRepeat(o: seq<int>, n: nat, k: Pair, weight: real)
    requires n <= |o|
    ensures WeightedOuter(o, n, k, weight) == Repeat(weight, Outer(o, n, k))
  {
    if n > 0 {
      WeightedOuterRepeat(o, n - 1, k, weight);
      WeightedInnerRepeat(o, n - 1, |o|, k, weight);
      RepeatAdd(weight, Outer(o, n - 1, k), Inner(o, n - 1, |o|, k));
    }
  }

  /** Adds one basket's pairs, each visit adding `weight`. */
  method AddDecayedBasket(m0: map<Pair, real>, o: seq<int>, weight: real) returns (m: map<Pair, real>)
    ensures forall k :: GetReal(m, k) == GetReal(m0, k) + Repeat(weight, Outer(o, |o|, k))
    ensures forall k :: k in m <==> k in m0 || Outer(o, |o|, k) > 0
  {
    m := m0;
    for i := 0 to |o|
      invariant forall k :: GetReal(m, k) == GetReal(m0, k) + WeightedOuter(o, i, k, weight)
      invariant forall k :: k in m <==> k in m0 || Outer(o, i, k) > 0
    {
      for j := i + 1 to |o|
        invariant forall k :: GetReal(m, k) == GetReal(m0, k) + WeightedOuter(o, i, k, weight) + WeightedInner(o, i, j, k, weight)
        invariant forall k :: k in m <==> k in m0 || Outer(o, i, k) + Inner(o, i, j, k) > 0
      {
        m := VisitDecayed(m, o[i], o[j], weight);
      }
    }
    forall k ensures GetReal(m, k) == GetReal(m0, k) + Repeat(weight, Outer(o, |o|, k)) {
      WeightedOuterRepeat(o, |o|, k, weight);
    }
  }

  /**
   * `_build_association_matrix_with_time_decay`, with the current time as a
   * parameter. A pair is present exactly when it co-occurs at all, whatever
   * its weight.
   */
  method BuildDecayedMatrix(orders: seq<DatedOrder>, now: int) returns (r: Result<map<Pair, real>>)
    ensures r.Err? <==> !Decayable(orders, now)
    ensures r.Err? ==> r.error == ZeroDivisionError
    ensures r.Ok? ==> forall k :: GetReal(r.value, k) == DecayedCoOccurrence(orders, now, k)
    ensures r.Ok? ==> forall k :: k in r.value <==> CoOccurrence(Baskets(orders), k) > 0
  {
    var m: map<Pair, real> := map[];
    for n := 0 to |orders|
      invariant Decayable(orders[..n], now)
      invariant forall k :: GetReal(m, k) == DecayedCoOccurrence(orders[..n], now, k)
      invariant forall k :: k in m <==> CoOccurrence(Baskets(orders[..n]), k) > 0
    {
      var factor := DecayFactor(DaysOld(now, orders[n].date));
      if factor.Err? {
        assert !Decayable(orders, now);
        return Err(factor.error);
      }
      DecayedStep(orders, n, now);
      m := AddDecayedBasket(m, orders[n].products, factor.value);
    }
    assert orders[..|orders|] == orders;
    return Ok(m);
  }

  /** Adding the next order to the prefix adds its own weighted pairs. */
  lemma DecayedStep(orders: seq<DatedOrder>, n: nat, now: int)
    requires n < |orders| && Decayable(orders[..n], now)
    requires DaysOld(now, orders[n].date) != -30
    ensures Decayable(orders[..n + 1], now)
    ensures forall k ::
      DecayedCoOccurrence(orders[..n + 1], now, k) == DecayedCoOccurrence(orders[..n], now, k) + Repeat(DecayFactor(DaysOld(now, orders[n].date)).value, Outer(orders[n].products, |orders[n].products|, k))
    ensures forall k ::
      CoOccurrence(Baskets(orders[..n + 1]), k) == CoOccurrence(Baskets(orders[..n]), k) + Outer(orders[n].products, |orders[n].products|, k)
  {
    assert orders[..n + 1] == orders[..n] + [orders[n]];
    assert orders[..n + 1][..n] == orders[..n];
    assert Baskets(orders[..n + 1]) == Baskets(orders[..n]) + [orders[n].products];
    assert Baskets(orders[..n + 1])[..n] == Baskets(orders[..n]);
  }

  /** The product counting of `_get_association_data`. */
  method CountProducts(orders: seq<seq<int>>) returns (counts: map<int, Pos>)
    ensures forall p :: p in counts <==> Occurrences(orders, p) > 0
    ensures forall p :: p in counts ==> counts[p] == Occurrences(orders, p)
  {
    counts := map[];
    for n := 0 to |orders|
      invariant forall p :: p in counts <==> Occurrences(orders[..n], p) > 0
      invariant forall p :: p in counts ==> counts[p] == Occurrences(orders[..n], p)
    {
      var o := orders[n];
      for j := 0 to |o|
        invariant forall p :: p in counts <==> Occurrences(orders[..n], p) + multiset(o[..j])[p] > 0
        invariant forall p :: p in counts ==> counts[p] == Occurrences(orders[..n], p) + multiset(o[..j])[p]
      {
        assert o[..j + 1] == o[..j] + [o[j]];
        var c := if o[j] in counts then counts[o[j]] + 1 else 1;
        counts := counts[o[j] := c];
      }
      assert o[..|o|] == o;
      assert orders[..n + 1][..n] == orders[..n];
    }
    assert orders[..|orders|] == orders;
  }

  /** The orders that have items. */
  function NonEmptyOrders(orders: seq<seq<int>>): (r: seq<seq<int>>)
    ensures |r| <= |orders|
    ensures forall o :: o in r <==> o in orders && o != []
  {
    if orders == [] then []
    else
      var last := orders[|orders| - 1];
      NonEmptyOrders(orders[..|orders| - 1]) + (if last == [] then [] else [last])
  }

  /**
   * `_get_association_data`, with the orders' item lists as the input:
   * orders without items are dropped before anything is counted.
   */
  method GetAssociationData(orders: seq<seq<int>>) returns (d: AssociationData)
    ensures forall k :: Get(d.associations, k) == CoOccurrence(NonEmptyOrders(orders), k)
    ensures forall p :: p in d.counts <==> Occurrences(NonEmptyOrders(orders), p) > 0
    ensures forall p :: p in d.counts ==> d.counts[p] == Occurrences(NonEmptyOrders(orders), p)
    ensures d.totalOrders == |NonEmptyOrders(orders)|
  {
    var baskets := NonEmptyOrders(orders);
    var associations := BuildAssociationMatrix(baskets);
    var counts := CountProducts(baskets);
    d := AssociationData(associations, counts, |baskets|);
  }

  // ---------------------------------------------------------------------
  // Properties of the matrix

  lemma {:induction false} InnerSymmetric(o: seq<int>, i: nat, j: nat, a: int, b: int)
    requires i < |o| && j <= |o|
    ensures Inner(o, i, j, (a, b)) == Inner(o, i, j, (b, a))
    decreases j
  {
    if j > i + 1 {
      InnerSymmetric(o, i, j - 1, a, b);
    }
  }

  lemma {:induction false} OuterSymmetric(o: seq<int>, n: nat, a: int, b: int)
    requires n <= |o|
    ensures Outer(o, n, (a, b)) == Outer(o, n, (b, a))
  {
    if n > 0 {
      OuterSymmetric(o, n - 1, a, b);
      InnerSymmetric(o, n - 1, |o|, a, b);
    }
  }

  /** The matrix is symmetric. */
  lemma {:induction false} CoOccurrenceSymmetric(orders: seq<seq<int>>, a: int, b: int)
    ensures CoOccurrence(orders, (a, b)) == CoOccurrence(orders, (b, a))
  {
    if orders != [] {
      var o := orders[|orders| - 1];
      CoOccurrenceSymmetric(orders[..|orders| - 1], a, b);
      OuterSymmetric(o, |o|, a, b);
    }
  }

  lemma {:induction false} InnerNoSelf(o: seq<int>, i: nat, j: nat, a: int)
    requires i < |o| && j <= |o|
    ensures Inner(o, i, j, (a, a)) == 0
    decreases j
  {
    if j > i + 1 {
      InnerNoSelf(o, i, j - 1, a);
    }
  }

  lemma {:induction false} OuterNoSelf(o: seq<int>, n: nat, a: int)
    requires n <= |o|
    ensures Outer(o, n, (a, a)) == 0
  {
    if n > 0 {
      OuterNoSelf(o, n - 1, a);
      InnerNoSelf(o, n - 1, |o|, a);
    }
  }

  /** No product is ever paired with itself. */
  lemma {:induction false} CoOccurrenceNoSelfPair(orders: seq<seq<int>>, a: int)
    ensures CoOccurrence(orders, (a, a)) == 0
  {
    if orders != [] {
      var o := orders[|orders| - 1];
      CoOccurrenceNoSelfPair(orders[..|orders| - 1], a);
      OuterNoSelf(o, |o|, a);
    }
  }

  /** The matrix the builder returns is symmetric and has no diagonal. */
  lemma MatrixShape(orders: seq<seq<int>>, m: map<Pair, nat>, a: int, b: int)
    requires forall k :: Get(m, k) == CoOccurrence(orders, k)
    requires forall k :: k in m <==> CoOccurrence(orders, k) > 0
    ensures Get(m, (a, b)) == Get(m, (b, a))
    ensures (a, a) !in m
  {
    CoOccurrenceSymmetric(orders, a, b);
    CoOccurrenceNoSelfPair(orders, a);
  }

  lemma {:induction false} InnerDistinct(o: seq<int>, i: nat, j: nat, a: int, b: int)
    requires Distinct(o) && a != b
    requires i < |o| && j <= |o|
    ensures Inner(o, i, j, (a, b)) == if exists m :: i < m < j && Adds(o[i], o[m], a, b) then 1 else 0
    decreases j
  {
    if j > i + 1 {
      InnerDistinct(o, i, j - 1, a, b);
      if Adds(o[i], o[j - 1], a, b) {
        forall m | i < m < j - 1 ensures !Adds(o[i], o[m], a, b) {
          assert o[m] != o[j - 1];
        }
      }
    }
  }

  lemma {:induction false} OuterDistinct(o: seq<int>, n: nat, a: int, b: int)
    requires Distinct(o) && a != b
    requires n <= |o|
    ensures Outer(o, n, (a, b))
      == if exists i, m :: 0 <= i < n && i < m < |o| && Adds(o[i], o[m], a, b) then 1 else 0
  {
    if n > 0 {
      OuterDistinct(o, n - 1, a, b);
      InnerDistinct(o, n - 1, |o|, a, b);
      if exists i, m :: 0 <= i < n - 1 && i < m < |o| && Adds(o[i], o[m], a, b) {
        var i, m :| 0 <= i < n - 1 && i < m < |o| && Adds(o[i], o[m], a, b);
        forall m' | n - 1 < m' < |o| ensures !Adds(o[n - 1], o[m'], a, b) {
        }
      }
    }
  }

  /** With distinct items, a basket pairs `a` and `b` once exactly when it holds both. */
  lemma BasketDistinct(o: seq<int>, a: int, b: int)
    requires Distinct(o) && a != b
    ensures Outer(o, |o|, (a, b)) == if a in o && b in o then 1 else 0
  {
    OuterDistinct(o, |o|, a, b);
    if a in o && b in o {
      var x :| 0 <= x < |o| && o[x] == a;
      var y :| 0 <= y < |o| && o[y] == b;
      if x < y {
        assert Adds(o[x], o[y], a, b);
      } else {
        assert Adds(o[y], o[x], a, b);
      }
    }
  }

  /**
   * With distinct items in every basket, the entry for two different
   * products is the number of orders that contain both.
   */
  lemma {:induction false} CoOccurrenceCountsOrders(orders: seq<seq<int>>, a: int, b: int)
    requires forall i :: 0 <= i < |orders| ==> Distinct(orders[i])
    requires a != b
    ensures CoOccurrence(orders, (a, b)) == OrdersWithBoth(orders, a, b)
  {
    if orders != [] {
      CoOccurrenceCountsOrders(orders[..|orders| - 1], a, b);
      BasketDistinct(orders[|orders| - 1], a, b);
    }
  }

  lemma DistinctMultiplicity(o: seq<int>, p: int)
    requires Distinct(o)
    ensures multiset(o)[p] == if p in o then 1 else 0
  {
    if o != [] {
      var t := o[..|o| - 1];
      assert o == t + [o[|o| - 1]];
      assert Distinct(t);
      DistinctMultiplicity(t, p);
    }
  }

  /** With distinct items, a product's count is the number of orders holding it. */
  lemma {:induction false} OccurrencesCountOrders(orders: seq<seq<int>>, p: int)
    requires forall i :: 0 <= i < |orders| ==> Distinct(orders[i])
    ensures Occurrences(orders, p) == OrdersWith(orders, p)
  {
    if orders != [] {
      OccurrencesCountOrders(orders[..|orders| - 1], p);
      DistinctMultiplicity(orders[|orders| - 1], p);
    }
  }

  lemma {:induction false} BothAtMostEither(orders: seq<seq<int>>, a: int, b: int)
    ensures OrdersWithBoth(orders, a, b) <= OrdersWith(orders, a)
  {
    if orders != [] {
      BothAtMostEither(orders[..|orders| - 1], a, b);
    }
  }

  /**
   * With distinct items per basket, a pair never co-occurs more often than
   * its anchor occurs, so the confidence of a real matrix is at most 1.
   */
  lemma CoOccurrenceAtMostCount(orders: seq<seq<int>>, a: int, b: int)
    requires forall i :: 0 <= i < |orders| ==> Distinct(orders[i])
    ensures CoOccurrence(orders, (a, b)) <= Occurrences(orders, a)
  {
    if a == b {
      CoOccurrenceNoSelfPair(orders, a);
    } else {
      CoOccurrenceCountsOrders(orders, a, b);
      OccurrencesCountOrders(orders, a);
      BothAtMostEither(orders, a, b);
    }
  }

  // ---------------------------------------------------------------------
  // The score

  /** `product_counts.get(p, 1)` */
  function CountOf(counts: map<int, Pos>, p: int): Pos {
    if p in counts then counts[p] else 1
  }

  /** P(candidate | anchor) as the co-occurrence over the anchor's count. */
  function Confidence(co: nat, anchorCount: nat): real
    requires anchorCount >= 1
  {
    co as real / anchorCount as real
  }

  /**
   * `_calculate_association_score` on the three numbers it looks up: zero
   * below the support or the confidence gate, otherwise confidence times
   * lift times ln(1 + co).
   */
  function ScoreOf(s: Settings, co: nat, anchorCount: nat, candidateCount: nat, totalOrders: int,
                   log1p: nat -> real): (r: real)
    requires anchorCount >= 1
  {
    if co < s.minSupport then 0.0
    else
      var confidence := Confidence(co, anchorCount);
      if confidence < s.minConfidence then 0.0
      else
        var probability := candidateCount as real / (if totalOrders < 1 then 1 else totalOrders) as real;
        var lift := confidence / MaxReal(probability, 0.001);
        confidence * lift * log1p(co)
  }

  function AssociationScore(s: Settings, anchor: int, candidate: int, d: AssociationData,
                            log1p: nat -> real): real
  {
    ScoreOf(s, Get(d.associations, (anchor, candidate)), CountOf(d.counts, anchor),
            CountOf(d.counts, candidate), d.totalOrders, log1p)
  }

  /** The gates: the score is never negative, and positive exactly when both gates pass. */
  lemma ScoreGates(s: Settings, co: nat, anchorCount: nat, candidateCount: nat, totalOrders: int,
                   log1p: nat -> real)
    requires anchorCount >= 1 && IsLog1p(log1p)
    ensures ScoreOf(s, co, anchorCount, candidateCount, totalOrders, log1p) >= 0.0
    ensures ScoreOf(s, co, anchorCount, candidateCount, totalOrders, log1p) > 0.0
        <==> co > 0 && co >= s.minSupport && Confidence(co, anchorCount) >= s.minConfidence
  {
    Log1pPositive(log1p, co);
    if co >= s.minSupport && Confidence(co, anchorCount) >= s.minConfidence {
      var confidence := Confidence(co, anchorCount);
      var probability := candidateCount as real / (if totalOrders < 1 then 1 else totalOrders) as real;
      var lift := confidence / MaxReal(probability, 0.001);
      if co > 0 {
        assert confidence > 0.0;
        assert lift > 0.0;
        PositiveProduct(confidence * lift, log1p(co));
      } else {
        assert confidence == 0.0;
      }
    }
  }

  lemma PositiveProduct(x: real, y: real)
    requires x > 0.0 && y > 0.0
    ensures x * y > 0.0
  {
  }

  lemma DivLess(x: real, y: real, d: real)
    requires x < y && d > 0.0
    ensures x / d < y / d
  {
    assert y / d - x / d == (y - x) / d;
  }

  lemma ProductLess(a1: real, a2: real, b1: real, b2: real)
    requires 0.0 < a1 < a2 && 0.0 < b1 < b2
    ensures a1 * b1 < a2 * b2
  {
    assert a1 * b1 < a2 * b1;
    assert a2 * b1 < a2 * b2;
  }

  /**
   * With the counts fixed, a larger co-occurrence never lowers the score,
   * and raises it strictly once the smaller one already passes the gates.
   */
  lemma ScoreIncreasing(s: Settings, co1: nat, co2: nat, anchorCount: nat, candidateCount: nat,
                        totalOrders: int, log1p: nat -> real)
    requires anchorCount >= 1 && IsLog1p(log1p)
    requires co1 <= co2
    ensures ScoreOf(s, co1, anchorCount, candidateCount, totalOrders, log1p)
         <= ScoreOf(s, co2, anchorCount, candidateCount, totalOrders, log1p)
    ensures co1 < co2 && ScoreOf(s, co1, anchorCount, candidateCount, totalOrders, log1p) > 0.0 ==>
      ScoreOf(s, co1, anchorCount, candidateCount, totalOrders, log1p) < ScoreOf(s, co2, anchorCount, candidateCount, totalOrders, log1p)
  {
    ScoreGates(s, co1, anchorCount, candidateCount, totalOrders, log1p);
    ScoreGates(s, co2, anchorCount, candidateCount, totalOrders, log1p);
    if ScoreOf(s, co1, anchorCount, candidateCount, totalOrders, log1p) > 0.0 && co1 < co2 {
      ScoreStrictlyIncreasing(s, co1, co2, anchorCount, candidateCount, totalOrders, log1p);
    }
  }

  lemma ScoreStrictlyIncreasing(s: Settings, co1: nat, co2: nat, anchorCount: nat, candidateCount: nat,
                                totalOrders: int, log1p: nat -> real)
    requires anchorCount >= 1 && IsLog1p(log1p)
    requires 0 < co1 < co2 && co1 >= s.minSupport && Confidence(co1, anchorCount) >= s.minConfidence
    ensures ScoreOf(s, co1, anchorCount, candidateCount, totalOrders, log1p)
          < ScoreOf(s, co2, anchorCount, candidateCount, totalOrders, log1p)
  {
    var c1, c2 := Confidence(co1, anchorCount), Confidence(co2, anchorCount);
    DivLess(co1 as real, co2 as real, anchorCount as real);
    var probability := candidateCount as real / (if totalOrders < 1 then 1 else totalOrders) as real;
    var bound := MaxReal(probability, 0.001);
    Log1pPositive(log1p, co1);
    assert log1p(co1) < log1p(co2);
    ScoreMonotone(c1, c2, bound, log1p(co1), log1p(co2));
  }

  /** c·(c/b)·l grows with c and l. */
  lemma ScoreMonotone(c1: real, c2: real, bound: real, l1: real, l2: real)
    requires 0.0 < c1 < c2 && bound > 0.0 && 0.0 < l1 < l2
    ensures c1 * (c1 / bound) * l1 < c2 * (c2 / bound) * l2
  {
    DivLess(c1, c2, bound);
    ProductLess(c1, c2, c1 / bound, c2 / bound);
    ProductLess(c1 * (c1 / bound), c2 * (c2 / bound), l1, l2);
  }

  /** `_filter_associations_by_support` */
  function FilterBySupport(s: Settings, associations: map<Pair, nat>): (r: map<Pair, nat>)
    ensures forall k :: k in r <==> k in associations && associations[k] >= s.minSupport
    ensures forall k :: k in r ==> r[k] == associations[k]
  {
    map k | k in associations && associations[k] >= s.minSupport :: associations[k]
  }

  /**
   * Filtering by support loses nothing the score can see: below the
   * support the score is zero either way.
   */
  lemma FilterKeepsScores(s: Settings, d: AssociationData, anchor: int, candidate: int,
                          log1p: nat -> real)
    requires s.minSupport >= 1
    ensures AssociationScore(s, anchor, candidate, d.(associations := FilterBySupport(s, d.associations)), log1p)
         == AssociationScore(s, anchor, candidate, d, log1p)
  {
    var k := (anchor, candidate);
    var f := FilterBySupport(s, d.associations);
    if k in d.associations && d.associations[k] >= s.minSupport {
      assert Get(f, k) == Get(d.associations, k);
    } else {
      assert Get(f, k) == 0;
    }
  }
}
