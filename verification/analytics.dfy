/**
 * The analytics rollups: best sellers per time window (overall and per
 * category) and trending products by interaction velocity (overall and per
 * category). Each rollup computes ranked rows from the order lines or the
 * grouped interaction counts it is given, and publishes them by deleting
 * the rows stored under each key and inserting the new ones; the stored
 * table is a sequence of rows.
 */
module Analytics {
  import opened Common
  import opened Ranking
  import Models

  type Product = Models.Product

  // ---------------------------------------------------------------------
  // Publishing: delete the rows under a key, then insert the new ones

  /** The rows of `t` stored under another key than `k`, in order. */
  function Without<R, K(==)>(t: seq<R>, keyOf: R -> K, k: K): seq<R> {
    if t == [] then []
    else
      var x := t[|t| - 1];
      Without(t[..|t| - 1], keyOf, k) + (if keyOf(x) == k then [] else [x])
  }

  /** The rows of `t` stored under `k`, in order. */
  function Keyed<R, K(==)>(t: seq<R>, keyOf: R -> K, k: K): seq<R> {
    if t == [] then []
    else
      var x := t[|t| - 1];
      Keyed(t[..|t| - 1], keyOf, k) + (if keyOf(x) == k then [x] else [])
  }

  /** Every row of `t` is stored under `k`. */
  ghost predicate AllKeyed<R, K>(t: seq<R>, keyOf: R -> K, k: K) {
    forall i :: 0 <= i < |t| ==> keyOf(t[i]) == k
  }

  lemma {:induction false} WithoutAppend<R, K>(a: seq<R>, b: seq<R>, keyOf: R -> K, k: K)
    ensures Without(a + b, keyOf, k) == Without(a, keyOf, k) + Without(b, keyOf, k)
    ensures Keyed(a + b, keyOf, k) == Keyed(a, keyOf, k) + Keyed(b, keyOf, k)
  {
    if b != [] {
      var init := b[..|b| - 1];
      WithoutAppend(a, init, keyOf, k);
      assert (a + b)[..|a + b| - 1] == a + init;
      assert (a + b)[|a + b| - 1] == b[|b| - 1];
    } else {
      assert a + b == a;
    }
  }

  /** Deleting a key keeps exactly the rows under other keys, and none under it. */
  lemma {:induction false} WithoutKeyed<R, K>(t: seq<R>, keyOf: R -> K, k: K, k': K)
    ensures Keyed(Without(t, keyOf, k), keyOf, k) == []
    ensures k' != k ==> Keyed(Without(t, keyOf, k), keyOf, k') == Keyed(t, keyOf, k')
    ensures forall x :: x in Without(t, keyOf, k) <==> x in t && keyOf(x) != k
  {
    if t != [] {
      var init := t[..|t| - 1];
      var x := t[|t| - 1];
      WithoutKeyed(init, keyOf, k, k');
      assert t == init + [x];
      WithoutAppend(Without(init, keyOf, k), if keyOf(x) == k then [] else [x], keyOf, k);
      WithoutAppend(Without(init, keyOf, k), if keyOf(x) == k then [] else [x], keyOf, k');
    }
  }

  /** Rows all under `k` are all kept by `Keyed(·, k)` and all dropped by `Without(·, k)`. */
  lemma {:induction false} OneKey<R, K>(t: seq<R>, keyOf: R -> K, k: K, k': K)
    requires AllKeyed(t, keyOf, k)
    ensures Keyed(t, keyOf, k) == t && Without(t, keyOf, k) == []
    ensures k' != k ==> Keyed(t, keyOf, k') == [] && Without(t, keyOf, k') == t
  {
    if t != [] {
      OneKey(t[..|t| - 1], keyOf, k, k');
    }
  }

  /** One publication: the key and the rows that replace the rows under it. */
  datatype Step<R, K> = Step(key: K, rows: seq<R>)

  /** Each step's rows are stored under the step's key. */
  ghost predicate WellKeyed<R, K>(steps: seq<Step<R, K>>, keyOf: R -> K) {
    forall i :: 0 <= i < |steps| ==> AllKeyed(steps[i].rows, keyOf, steps[i].key)
  }

  /** The table after the steps, in order: each deletes its key's rows, then inserts its own. */
  function Publish<R, K(==)>(t: seq<R>, keyOf: R -> K, steps: seq<Step<R, K>>): seq<R> {
    if steps == [] then t
    else
      var s := steps[|steps| - 1];
      Without(Publish(t, keyOf, steps[..|steps| - 1]), keyOf, s.key) + s.rows
  }

  /** The rows of the last step with key `k`, if any step has it. */
  function LastRows<R, K(==)>(steps: seq<Step<R, K>>, k: K): Option<seq<R>> {
    if steps == [] then None
    else if steps[|steps| - 1].key == k then Some(steps[|steps| - 1].rows)
    else LastRows(steps[..|steps| - 1], k)
  }

  /**
   * After publishing, the rows under a key are those of the last step with
   * that key, or the old rows when no step has it.
   */
  lemma {:induction false} PublishKeyed<R, K>(t: seq<R>, keyOf: R -> K, steps: seq<Step<R, K>>, k: K)
    requires WellKeyed(steps, keyOf)
    ensures Keyed(Publish(t, keyOf, steps), keyOf, k) ==
      match LastRows(steps, k)
      case Some(rows) => rows
      case None => Keyed(t, keyOf, k)
  {
    if steps != [] {
      var init := steps[..|steps| - 1];
      var s := steps[|steps| - 1];
      assert WellKeyed(init, keyOf);
      PublishKeyed(t, keyOf, init, k);
      var p := Publish(t, keyOf, init);
      WithoutAppend(Without(p, keyOf, s.key), s.rows, keyOf, k);
      WithoutKeyed(p, keyOf, s.key, k);
      OneKey(s.rows, keyOf, s.key, k);
    }
  }

  /** The old rows that survive the steps: those under none of their keys. */
  function Strip<R, K(==)>(t: seq<R>, keyOf: R -> K, steps: seq<Step<R, K>>): seq<R> {
    if steps == [] then t
    else Without(Strip(t, keyOf, steps[..|steps| - 1]), keyOf, steps[|steps| - 1].key)
  }

  /** The published table is the surviving old rows followed by rows that depend on the steps alone. */
  lemma {:induction false} PublishSplit<R, K>(t: seq<R>, keyOf: R -> K, steps: seq<Step<R, K>>)
    ensures Publish(t, keyOf, steps) == Strip(t, keyOf, steps) + Publish([], keyOf, steps)
  {
    if steps != [] {
      var init := steps[..|steps| - 1];
      var s := steps[|steps| - 1];
      PublishSplit(t, keyOf, init);
      WithoutAppend(Strip(t, keyOf, init), Publish([], keyOf, init), keyOf, s.key);
    }
  }

  /** The keys the steps publish. */
  ghost predicate Published<R, K>(steps: seq<Step<R, K>>, k: K) {
    exists i :: 0 <= i < |steps| && steps[i].key == k
  }

  /** A key published by all steps but the last is published by all of them. */
  lemma PublishedInit<R, K>(steps: seq<Step<R, K>>, k: K)
    requires steps != []
    ensures Published(steps, k) <==> Published(steps[..|steps| - 1], k) || steps[|steps| - 1].key == k
  {
    var init := steps[..|steps| - 1];
    if Published(init, k) {
      var i :| 0 <= i < |init| && init[i].key == k;
      assert steps[i] == init[i];
    }
  }

  /** A row survives the steps exactly when it was in the table and no step publishes its key. */
  lemma {:induction false} StripMember<R, K>(t: seq<R>, keyOf: R -> K, steps: seq<Step<R, K>>, x: R)
    ensures x in Strip(t, keyOf, steps) <==> x in t && !Published(steps, keyOf(x))
  {
    if steps != [] {
      var init := steps[..|steps| - 1];
      StripMember(t, keyOf, init, x);
      WithoutKeyed(Strip(t, keyOf, init), keyOf, steps[|steps| - 1].key, steps[|steps| - 1].key);
      PublishedInit(steps, keyOf(x));
    }
  }

  lemma {:induction false} WithoutNone<R, K>(t: seq<R>, keyOf: R -> K, k: K)
    requires forall x :: x in t ==> keyOf(x) != k
    ensures Without(t, keyOf, k) == t
  {
    if t != [] {
      WithoutNone(t[..|t| - 1], keyOf, k);
    }
  }

  /** Stripping changes nothing when no row is under a published key. */
  lemma {:induction false} StripNone<R, K>(t: seq<R>, keyOf: R -> K, steps: seq<Step<R, K>>)
    requires forall x :: x in t ==> !Published(steps, keyOf(x))
    ensures Strip(t, keyOf, steps) == t
  {
    if steps != [] {
      var init := steps[..|steps| - 1];
      forall x | x in t ensures !Published(init, keyOf(x)) {
        PublishedInit(steps, keyOf(x));
      }
      StripNone(t, keyOf, init);
      WithoutNone(t, keyOf, steps[|steps| - 1].key);
    }
  }

  lemma {:induction false} StripAppend<R, K>(a: seq<R>, b: seq<R>, keyOf: R -> K, steps: seq<Step<R, K>>)
    ensures Strip(a + b, keyOf, steps) == Strip(a, keyOf, steps) + Strip(b, keyOf, steps)
  {
    if steps != [] {
      var init := steps[..|steps| - 1];
      StripAppend(a, b, keyOf, init);
      WithoutAppend(Strip(a, keyOf, init), Strip(b, keyOf, init), keyOf, steps[|steps| - 1].key);
    }
  }

  /** Every row the steps insert is under a key they publish. */
  lemma {:induction false} GeneratedKey<R, K>(keyOf: R -> K, steps: seq<Step<R, K>>, x: R)
    requires WellKeyed(steps, keyOf)
    requires x in Publish([], keyOf, steps)
    ensures Published(steps, keyOf(x))
  {
    var init := steps[..|steps| - 1];
    var s := steps[|steps| - 1];
    PublishedInit(steps, keyOf(x));
    if x in s.rows {
      var j :| 0 <= j < |s.rows| && s.rows[j] == x;
      assert AllKeyed(s.rows, keyOf, s.key);
    } else {
      assert WellKeyed(init, keyOf);
      WithoutKeyed(Publish([], keyOf, init), keyOf, s.key, s.key);
      GeneratedKey(keyOf, init, x);
    }
  }

  /** Publishing the same rollup twice leaves the table as publishing it once. */
  lemma PublishIdempotent<R, K>(t: seq<R>, keyOf: R -> K, steps: seq<Step<R, K>>)
    requires WellKeyed(steps, keyOf)
    ensures Publish(Publish(t, keyOf, steps), keyOf, steps) == Publish(t, keyOf, steps)
  {
    var strip := Strip(t, keyOf, steps);
    var gen := Publish([], keyOf, steps);
    PublishSplit(t, keyOf, steps);
    PublishSplit(strip + gen, keyOf, steps);
    StripAppend(strip, gen, keyOf, steps);
    StripTwice(t, keyOf, steps);
    StripGenerated(keyOf, steps);
    assert Strip(strip, keyOf, steps) + Strip(gen, keyOf, steps) == strip + [];
    assert strip + [] == strip;
  }

  /** Stripping twice strips nothing more. */
  lemma StripTwice<R, K>(t: seq<R>, keyOf: R -> K, steps: seq<Step<R, K>>)
    ensures Strip(Strip(t, keyOf, steps), keyOf, steps) == Strip(t, keyOf, steps)
  {
    var strip := Strip(t, keyOf, steps);
    forall x | x in strip ensures !Published(steps, keyOf(x)) {
      StripMember(t, keyOf, steps, x);
    }
    StripNone(strip, keyOf, steps);
  }

  /** Stripping the steps' keys from what they insert leaves nothing. */
  lemma StripGenerated<R, K>(keyOf: R -> K, steps: seq<Step<R, K>>)
    requires WellKeyed(steps, keyOf)
    ensures Strip(Publish([], keyOf, steps), keyOf, steps) == []
  {
    var gen := Publish([], keyOf, steps);
    var g := Strip(gen, keyOf, steps);
    if g != [] {
      StripMember(gen, keyOf, steps, g[0]);
      GeneratedKey(keyOf, steps, g[0]);
    }
  }

  /** The last step with key `k` is at `i`: publishing leaves its rows under `k`. */
  lemma {:induction false} LastRowsAt<R, K>(steps: seq<Step<R, K>>, k: K, i: nat)
    requires i < |steps| && steps[i].key == k
    requires forall j :: i < j < |steps| ==> steps[j].key != k
    ensures LastRows(steps, k) == Some(steps[i].rows)
  {
    if i < |steps| - 1 {
      LastRowsAt(steps[..|steps| - 1], k, i);
    }
  }

  /** Publishing one more step. */
  lemma PublishNext<R, K>(t: seq<R>, keyOf: R -> K, steps: seq<Step<R, K>>, j: nat)
    requires j < |steps|
    ensures Publish(t, keyOf, steps[..j + 1]) == Without(Publish(t, keyOf, steps[..j]), keyOf, steps[j].key) + steps[j].rows
  {
    assert steps[..j + 1][..j] == steps[..j];
  }

  /** No step has key `k`: publishing leaves the rows under `k` alone. */
  lemma {:induction false} LastRowsNone<R, K>(steps: seq<Step<R, K>>, k: K)
    requires forall j :: 0 <= j < |steps| ==> steps[j].key != k
    ensures LastRows(steps, k) == None
  {
    if steps != [] {
      LastRowsNone(steps[..|steps| - 1], k);
    }
  }

  // ---------------------------------------------------------------------
  // Time windows

  /** 2000-01-01 00:00:00 UTC in seconds since the epoch: the start of every window other than 7d, 30d and 90d. */
  const Year2000 := 946684800

  /** The earliest order time a window counts, at time `now` (in seconds). */
  function WindowStart(window: string, now: int): int {
    if window == "7d" then now - 7 * Day
    else if window == "30d" then now - 30 * Day
    else if window == "90d" then now - 90 * Day
    else Year2000
  }

  /**
   * The named windows end at `now` and nest, 7 days inside 30 inside 90;
   * any other window has the same start whatever the time, and once 90
   * days have passed since that start it contains the 90-day window.
   */
  lemma WindowsNested(window: string, now: int, later: int)
    ensures WindowStart("90d", now) < WindowStart("30d", now) < WindowStart("7d", now) < now
    ensures window !in {"7d", "30d", "90d"} ==> WindowStart(window, now) == WindowStart(window, later)
    ensures window !in {"7d", "30d", "90d"} && now >= Year2000 + 90 * Day ==>
      WindowStart(window, now) <= WindowStart("90d", now)
  {
  }

  // ---------------------------------------------------------------------
  // Best sellers

  /** An order line joined with its order's creation time. */
  datatype OrderLine = OrderLine(productId: int, quantity: int, price: real, createdAt: int)

  /** The order lines of orders created at or after `start`. */
  function Since(lines: seq<OrderLine>, start: int): (r: seq<OrderLine>)
    ensures forall l :: l in r <==> l in lines && l.createdAt >= start
  {
    if lines == [] then []
    else
      var l := lines[|lines| - 1];
      Since(lines[..|lines| - 1], start) + (if l.createdAt >= start then [l] else [])
  }

  /** The category of the catalogue product with id `id`, or None when no product has it. */
  function CategoryOf(catalog: seq<Product>, id: int): Option<Option<string>> {
    if catalog == [] then None
    else if catalog[0].id == id then Some(catalog[0].category)
    else CategoryOf(catalog[1..], id)
  }

  /** The order lines whose product is in the catalogue with category `c` (`None` matches a null category). */
  function InCategory(lines: seq<OrderLine>, catalog: seq<Product>, c: Option<string>): (r: seq<OrderLine>)
    ensures forall l :: l in r <==> l in lines && CategoryOf(catalog, l.productId) == Some(c)
  {
    if lines == [] then []
    else
      var l := lines[|lines| - 1];
      InCategory(lines[..|lines| - 1], catalog, c) + (if CategoryOf(catalog, l.productId) == Some(c) then [l] else [])
  }

  /** The distinct categories of the catalogue, `None` for products without one. */
  function Categories(catalog: seq<Product>): seq<Option<string>> {
    Dedup(seq(|catalog|, i requires 0 <= i < |catalog| => catalog[i].category))
  }

  /** Units of product `id` sold on the lines. */
  function Quantity(lines: seq<OrderLine>, id: int): int {
    if lines == [] then 0
    else
      var l := lines[|lines| - 1];
      Quantity(lines[..|lines| - 1], id) + (if l.productId == id then l.quantity else 0)
  }

  /** Revenue of product `id` on the lines: the sum of quantity times unit price. */
  function Revenue(lines: seq<OrderLine>, id: int): real {
    if lines == [] then 0.0
    else
      var l := lines[|lines| - 1];
      Revenue(lines[..|lines| - 1], id) + (if l.productId == id then l.quantity as real * l.price else 0.0)
  }

  /** One group of the sales query: a product, its units sold and its revenue. */
  datatype Sale = Sale(productId: int, salesCount: int, revenue: real)

  /** The products sold on the lines, each once. */
  function SoldIds(lines: seq<OrderLine>): seq<int> {
    Dedup(seq(|lines|, i requires 0 <= i < |lines| => lines[i].productId))
  }

  /** The sales query grouped by product. */
  function Sales(lines: seq<OrderLine>): seq<Sale> {
    var ids := SoldIds(lines);
    seq(|ids|, i requires 0 <= i < |ids| => Sale(ids[i], Quantity(lines, ids[i]), Revenue(lines, ids[i])))
  }

  /** One group per product sold, carrying that product's totals. */
  lemma SalesGroups(lines: seq<OrderLine>, id: int)
    ensures (exists l :: l in lines && l.productId == id) <==> (exists i :: 0 <= i < |Sales(lines)| && Sales(lines)[i].productId == id)
    ensures forall i :: 0 <= i < |Sales(lines)| ==>
      Sales(lines)[i] == Sale(Sales(lines)[i].productId, Quantity(lines, Sales(lines)[i].productId), Revenue(lines, Sales(lines)[i].productId))
    ensures forall i, j :: 0 <= i < j < |Sales(lines)| ==> Sales(lines)[i].productId != Sales(lines)[j].productId
  {
    var all := seq(|lines|, i requires 0 <= i < |lines| => lines[i].productId);
    var ids := SoldIds(lines);
    if exists l :: l in lines && l.productId == id {
      var l :| l in lines && l.productId == id;
      var k :| 0 <= k < |lines| && lines[k] == l;
      assert all[k] == id && all[k] in all;
      assert id in ids;
      var i :| 0 <= i < |ids| && ids[i] == id;
      assert Sales(lines)[i].productId == id;
    }
    if exists i :: 0 <= i < |Sales(lines)| && Sales(lines)[i].productId == id {
      var i :| 0 <= i < |Sales(lines)| && Sales(lines)[i].productId == id;
      assert ids[i] in ids;
      var k :| 0 <= k < |all| && all[k] == ids[i];
      assert lines[k] in lines;
    }
  }

  /** The sort key of the sales query: units sold. */
  function UnitsSold(s: Sale): real {
    s.salesCount as real
  }

  /** The sales query ordered by units sold, descending, and limited to `n` groups. */
  function TopSales(sales: seq<Sale>, n: nat): seq<Sale> {
    TopItems(seq(|sales|, i requires 0 <= i < |sales| => Scored(UnitsSold(sales[i]), sales[i])), n)
  }

  /**
   * At most `n` groups, all from the query, in non-increasing units sold;
   * when the query has no more than `n` groups, all of them.
   */
  lemma TopSalesFacts(sales: seq<Sale>, n: nat)
    ensures |TopSales(sales, n)| <= n
    ensures forall s :: s in TopSales(sales, n) ==> s in sales
    ensures forall i, j :: 0 <= i < j < |TopSales(sales, n)| ==>
      TopSales(sales, n)[i].salesCount >= TopSales(sales, n)[j].salesCount
    ensures |sales| <= n ==> forall s :: s in sales ==> s in TopSales(sales, n)
  {
    var scored := seq(|sales|, i requires 0 <= i < |sales| => Scored(UnitsSold(sales[i]), sales[i]));
    TopItemsRanked(scored, n, UnitsSold);
    assert Items(scored) == sales;
  }

  /** A stored best-seller row; the category is None for the overall list. */
  datatype BestSeller = BestSeller(
    productId: int,
    category: Option<string>,
    window: string,
    salesCount: int,
    revenue: real,
    rank: nat)

  /** Best-seller rows are stored under their window and category. */
  function BestSellerKey(b: BestSeller): (string, Option<string>) {
    (b.window, b.category)
  }

  /** The rows for ranked groups: ranks 1, 2, ... in the order given. */
  function BestSellerRows(sales: seq<Sale>, category: Option<string>, window: string): seq<BestSeller> {
    seq(|sales|, i requires 0 <= i < |sales| =>
      BestSeller(sales[i].productId, category, window, sales[i].salesCount, sales[i].revenue, i + 1))
  }

  /** The overall list of a window's best sellers: at most `topN` products. */
  function OverallBestSellers(lines: seq<OrderLine>, window: string, now: int, topN: nat): seq<BestSeller> {
    BestSellerRows(TopSales(Sales(Since(lines, WindowStart(window, now))), topN), None, window)
  }

  /** A category's list of a window's best sellers: at most 20 products. */
  function CategoryBestSellers(lines: seq<OrderLine>, catalog: seq<Product>, c: Option<string>, window: string, now: int)
    : seq<BestSeller>
  {
    BestSellerRows(TopSales(Sales(InCategory(Since(lines, WindowStart(window, now)), catalog, c)), 20), c, window)
  }

  /** The overall list, then one list per category of `cats`, of one window. */
  function BestSellerSteps(lines: seq<OrderLine>, catalog: seq<Product>, cats: seq<Option<string>>,
                           window: string, now: int, topN: nat)
    : seq<Step<BestSeller, (string, Option<string>)>>
  {
    [Step((window, None), OverallBestSellers(lines, window, now, topN))]
    + seq(|cats|, j requires 0 <= j < |cats| => Step((window, cats[j]), CategoryBestSellers(lines, catalog, cats[j], window, now)))
  }

  /** Inserting ranked rows: `enumerate(groups, 1)`, one row added per group. */
  method InsertBestSellers(table: seq<BestSeller>, sales: seq<Sale>, category: Option<string>, window: string)
    returns (t: seq<BestSeller>)
    ensures t == table + BestSellerRows(sales, category, window)
  {
    t := table;
    var rank := 1;
    while rank <= |sales|
      invariant 1 <= rank <= |sales| + 1
      invariant t == table + BestSellerRows(sales[..rank - 1], category, window)
    {
      var s := sales[rank - 1];
      assert BestSellerRows(sales[..rank], category, window)
        == BestSellerRows(sales[..rank - 1], category, window) + [BestSeller(s.productId, category, window, s.salesCount, s.revenue, rank)];
      t := t + [BestSeller(s.productId, category, window, s.salesCount, s.revenue, rank)];
      rank := rank + 1;
    }
    assert sales[..|sales|] == sales;
  }

  /**
   * `calculate_best_sellers` on the stored table: the order lines, the
   * catalogue and the clock are inputs; each list replaces the rows under
   * its window and category.
   */
  method CalculateBestSellers(table: seq<BestSeller>, lines: seq<OrderLine>, catalog: seq<Product>,
                              window: string, now: int, topN: nat)
    returns (t: seq<BestSeller>)
    ensures t == Publish(table, BestSellerKey, BestSellerSteps(lines, catalog, Categories(catalog), window, now, topN))
  {
    ghost var steps := BestSellerSteps(lines, catalog, Categories(catalog), window, now, topN);
    var recent := Since(lines, WindowStart(window, now));
    t := Without(table, BestSellerKey, (window, None));
    t := InsertBestSellers(t, TopSales(Sales(recent), topN), None, window);
    var cats := Categories(catalog);
    BestSellerStepAt(lines, catalog, cats, window, now, topN, 0);
    PublishNext(table, BestSellerKey, steps, 0);
    assert steps[..0] == [];
    for j := 0 to |cats|
      invariant t == Publish(table, BestSellerKey, steps[..j + 1])
    {
      var c := cats[j];
      BestSellerStepAt(lines, catalog, cats, window, now, topN, j);
      PublishNext(table, BestSellerKey, steps, j + 1);
      t := Without(t, BestSellerKey, (window, c));
      t := InsertBestSellers(t, TopSales(Sales(InCategory(recent, catalog, c)), 20), c, window);
    }
    assert steps[..|cats| + 1] == steps;
  }

  lemma BestSellerStepAt(lines: seq<OrderLine>, catalog: seq<Product>, cats: seq<Option<string>>,
                         window: string, now: int, topN: nat, j: nat)
    requires j <= |cats|
    ensures var steps := BestSellerSteps(lines, catalog, cats, window, now, topN);
      && |steps| == |cats| + 1
      && steps[0] == Step((window, None), OverallBestSellers(lines, window, now, topN))
      && (j < |cats| ==> steps[j + 1] == Step((window, cats[j]), CategoryBestSellers(lines, catalog, cats[j], window, now)))
  {
  }

  lemma BestSellerStepsKeyed(lines: seq<OrderLine>, catalog: seq<Product>, cats: seq<Option<string>>,
                             window: string, now: int, topN: nat)
    ensures WellKeyed(BestSellerSteps(lines, catalog, cats, window, now, topN), BestSellerKey)
  {
  }

  /** Under a key whose last step is at `i`, the published table holds that step's rows. */
  lemma PublishedAt<R, K>(t: seq<R>, keyOf: R -> K, steps: seq<Step<R, K>>, k: K, i: nat)
    requires WellKeyed(steps, keyOf)
    requires i < |steps| && steps[i].key == k
    requires forall j :: i < j < |steps| ==> steps[j].key != k
    ensures Keyed(Publish(t, keyOf, steps), keyOf, k) == steps[i].rows
  {
    PublishKeyed(t, keyOf, steps, k);
    LastRowsAt(steps, k, i);
  }

  /** Under a key no step has, the published table holds the old rows. */
  lemma PublishedNone<R, K>(t: seq<R>, keyOf: R -> K, steps: seq<Step<R, K>>, k: K)
    requires WellKeyed(steps, keyOf)
    requires forall j :: 0 <= j < |steps| ==> steps[j].key != k
    ensures Keyed(Publish(t, keyOf, steps), keyOf, k) == Keyed(t, keyOf, k)
  {
    PublishKeyed(t, keyOf, steps, k);
    LastRowsNone(steps, k);
  }

  /** A listed category's key holds that category's list. */
  lemma BestSellersCategory(table: seq<BestSeller>, lines: seq<OrderLine>, catalog: seq<Product>,
                            cats: seq<Option<string>>, window: string, now: int, topN: nat, j: nat)
    requires Distinct(cats) && j < |cats|
    ensures Keyed(Publish(table, BestSellerKey, BestSellerSteps(lines, catalog, cats, window, now, topN)), BestSellerKey, (window, cats[j]))
      == CategoryBestSellers(lines, catalog, cats[j], window, now)
  {
    var steps := BestSellerSteps(lines, catalog, cats, window, now, topN);
    BestSellerStepsKeyed(lines, catalog, cats, window, now, topN);
    BestSellerStepAt(lines, catalog, cats, window, now, topN, j);
    forall i | j + 1 < i < |steps| ensures steps[i].key != (window, cats[j]) {
      BestSellerStepAt(lines, catalog, cats, window, now, topN, i - 1);
    }
    PublishedAt(table, BestSellerKey, steps, (window, cats[j]), j + 1);
  }

  /** With None not listed as a category, the overall key holds the overall list. */
  lemma BestSellersOverall(table: seq<BestSeller>, lines: seq<OrderLine>, catalog: seq<Product>,
                           cats: seq<Option<string>>, window: string, now: int, topN: nat)
    requires None !in cats
    ensures Keyed(Publish(table, BestSellerKey, BestSellerSteps(lines, catalog, cats, window, now, topN)), BestSellerKey, (window, None))
      == OverallBestSellers(lines, window, now, topN)
  {
    var steps := BestSellerSteps(lines, catalog, cats, window, now, topN);
    BestSellerStepsKeyed(lines, catalog, cats, window, now, topN);
    BestSellerStepAt(lines, catalog, cats, window, now, topN, 0);
    forall i | 0 < i < |steps| ensures steps[i].key != (window, None) {
      BestSellerStepAt(lines, catalog, cats, window, now, topN, i - 1);
    }
    PublishedAt(table, BestSellerKey, steps, (window, None), 0);
  }

  /** Keys of other windows, and unlisted categories other than None, keep their old rows. */
  lemma BestSellersUntouched(table: seq<BestSeller>, lines: seq<OrderLine>, catalog: seq<Product>,
                             cats: seq<Option<string>>, window: string, now: int, topN: nat,
                             k: (string, Option<string>))
    requires k.0 != window || (k.1 != None && k.1 !in cats)
    ensures Keyed(Publish(table, BestSellerKey, BestSellerSteps(lines, catalog, cats, window, now, topN)), BestSellerKey, k)
      == Keyed(table, BestSellerKey, k)
  {
    var steps := BestSellerSteps(lines, catalog, cats, window, now, topN);
    BestSellerStepsKeyed(lines, catalog, cats, window, now, topN);
    forall i | 0 <= i < |steps| ensures steps[i].key != k {
      BestSellerStepAt(lines, catalog, cats, window, now, topN, if i == 0 then 0 else i - 1);
    }
    PublishedNone(table, BestSellerKey, steps, k);
  }

  /** Running a best-seller rollup twice on the same data leaves the table as running it once. */
  lemma BestSellersIdempotent(table: seq<BestSeller>, lines: seq<OrderLine>, catalog: seq<Product>,
                              window: string, now: int, topN: nat)
    ensures var steps := BestSellerSteps(lines, catalog, Categories(catalog), window, now, topN);
      Publish(Publish(table, BestSellerKey, steps), BestSellerKey, steps) == Publish(table, BestSellerKey, steps)
  {
    BestSellerStepsKeyed(lines, catalog, Categories(catalog), window, now, topN);
    PublishIdempotent(table, BestSellerKey, BestSellerSteps(lines, catalog, Categories(catalog), window, now, topN));
  }

  /**
   * Stored best-seller rows rank 1, 2, ... in non-increasing units sold,
   * at most `n` of them, each with its product's totals in the window.
   */
  lemma BestSellerRanks(sales: seq<Sale>, n: nat, category: Option<string>, window: string)
    ensures var rows := BestSellerRows(TopSales(sales, n), category, window);
      && |rows| <= n
      && (forall i :: 0 <= i < |rows| ==> rows[i].rank == i + 1)
      && (forall i, j :: 0 <= i < j < |rows| ==> rows[i].salesCount >= rows[j].salesCount)
      && (forall i :: 0 <= i < |rows| ==> Sale(rows[i].productId, rows[i].salesCount, rows[i].revenue) in sales)
  {
    TopSalesFacts(sales, n);
    var top := TopSales(sales, n);
    var rows := BestSellerRows(top, category, window);
    forall i | 0 <= i < |rows| ensures Sale(rows[i].productId, rows[i].salesCount, rows[i].revenue) in sales {
      assert Sale(rows[i].productId, rows[i].salesCount, rows[i].revenue) == top[i];
    }
  }

  // ---------------------------------------------------------------------
  // Trending products

  /** One row of a grouped interaction query: product, interaction type and number of interactions. */
  datatype Grouped = Grouped(productId: int, kind: string, count: nat)

  datatype Counter = Views | Clicks | Carts | Purchases

  /**
   * The counter a grouped row adds to. User rows count views, clicks and
   * purchases; guest rows count views, clicks and cart additions; every
   * other row is skipped.
   */
  function CounterOf(kind: string, guest: bool): Option<Counter> {
    if kind == "view" then Some(Views)
    else if kind == "click" then Some(Clicks)
    else if !guest && kind == "purchase" then Some(Purchases)
    else if guest && kind == "add_to_cart" then Some(Carts)
    else None
  }

  /** A product's interaction counts in the window. */
  datatype Tally = Tally(views: nat, clicks: nat, carts: nat, purchases: nat)

  function Field(t: Tally, c: Counter): nat {
    match c
    case Views => t.views
    case Clicks => t.clicks
    case Carts => t.carts
    case Purchases => t.purchases
  }

  function AddTo(t: Tally, c: Counter, n: nat): (r: Tally)
    ensures forall d :: Field(r, d) == Field(t, d) + (if d == c then n else 0)
  {
    match c
    case Views => t.(views := t.views + n)
    case Clicks => t.(clicks := t.clicks + n)
    case Carts => t.(carts := t.carts + n)
    case Purchases => t.(purchases := t.purchases + n)
  }

  /** The per-product tallies, with the products in the order they were first counted. */
  datatype Interactions = Interactions(order: seq<int>, tallies: map<int, Tally>)

  const NoInteractions: Interactions := Interactions([], map[])

  /** The tally of a product; a product never counted has all counts zero. */
  function TallyOf(acc: Interactions, id: int): Tally {
    if id in acc.tallies then acc.tallies[id] else Tally(0, 0, 0, 0)
  }

  /** The products in `order` are exactly the keys of `tallies`, each once. */
  ghost predicate Wf(acc: Interactions) {
    && Distinct(acc.order)
    && forall id :: id in acc.tallies <==> id in acc.order
  }

  /** One grouped row counted: a skipped row changes nothing, not even the keys. */
  function Count(acc: Interactions, r: Grouped, guest: bool): Interactions {
    match CounterOf(r.kind, guest)
    case None => acc
    case Some(c) =>
      Interactions(
        if r.productId in acc.tallies then acc.order else acc.order + [r.productId],
        acc.tallies[r.productId := AddTo(TallyOf(acc, r.productId), c, r.count)])
  }

  /** The grouped rows counted in order. */
  function Accumulate(acc: Interactions, rows: seq<Grouped>, guest: bool): Interactions {
    if rows == [] then acc else Count(Accumulate(acc, rows[..|rows| - 1], guest), rows[|rows| - 1], guest)
  }

  /** User rows first, then guest rows. */
  function Aggregate(userRows: seq<Grouped>, guestRows: seq<Grouped>): Interactions {
    Accumulate(Accumulate(NoInteractions, userRows, false), guestRows, true)
  }

  /** Counting the grouped rows of one query into `interaction_data`, a row at a time. */
  method AccumulateRows(acc: Interactions, rows: seq<Grouped>, guest: bool) returns (r: Interactions)
    ensures r == Accumulate(acc, rows, guest)
  {
    var order := acc.order;
    var tallies := acc.tallies;
    for i := 0 to |rows|
      invariant Interactions(order, tallies) == Accumulate(acc, rows[..i], guest)
    {
      var row := rows[i];
      assert rows[..i + 1][..i] == rows[..i];
      var c := CounterOf(row.kind, guest);
      if c.Some? {
        if row.productId !in tallies {
          order := order + [row.productId];
          tallies := tallies[row.productId := Tally(0, 0, 0, 0)];
        }
        tallies := tallies[row.productId := AddTo(tallies[row.productId], c.value, row.count)];
      }
    }
    assert rows[..|rows|] == rows;
    r := Interactions(order, tallies);
  }

  method AggregateInteractions(userRows: seq<Grouped>, guestRows: seq<Grouped>) returns (acc: Interactions)
    ensures acc == Aggregate(userRows, guestRows)
  {
    acc := AccumulateRows(NoInteractions, userRows, false);
    acc := AccumulateRows(acc, guestRows, true);
  }

  /** Interactions of one type on one product, summed over the grouped rows. */
  function Sum(rows: seq<Grouped>, id: int, kind: string): nat {
    if rows == [] then 0
    else
      var r := rows[|rows| - 1];
      Sum(rows[..|rows| - 1], id, kind) + (if r.productId == id && r.kind == kind then r.count else 0)
  }

  /** Counting keeps the products listed once each, in order of first count. */
  lemma {:induction false} AccumulateWf(acc: Interactions, rows: seq<Grouped>, guest: bool)
    requires Wf(acc)
    ensures Wf(Accumulate(acc, rows, guest))
  {
    if rows != [] {
      var init := rows[..|rows| - 1];
      AccumulateWf(acc, init, guest);
      DistinctSnoc(Accumulate(acc, init, guest).order, rows[|rows| - 1].productId);
    }
  }

  /** One row counted: only the counter its type selects, on its own product, grows. */
  lemma CountTally(acc: Interactions, r: Grouped, guest: bool, id: int)
    ensures var t := TallyOf(acc, id);
      var n := if r.productId == id then r.count else 0;
      TallyOf(Count(acc, r, guest), id) == Tally(
        t.views + (if r.kind == "view" then n else 0),
        t.clicks + (if r.kind == "click" then n else 0),
        t.carts + (if guest && r.kind == "add_to_cart" then n else 0),
        t.purchases + (if !guest && r.kind == "purchase" then n else 0))
  {
  }

  /** Counting adds each counted row to its product's counter. */
  lemma {:induction false} AccumulateCounts(acc: Interactions, rows: seq<Grouped>, guest: bool, id: int)
    ensures TallyOf(Accumulate(acc, rows, guest), id) == Tally(
      TallyOf(acc, id).views + Sum(rows, id, "view"),
      TallyOf(acc, id).clicks + Sum(rows, id, "click"),
      TallyOf(acc, id).carts + (if guest then Sum(rows, id, "add_to_cart") else 0),
      TallyOf(acc, id).purchases + (if guest then 0 else Sum(rows, id, "purchase")))
  {
    if rows != [] {
      var init := rows[..|rows| - 1];
      AccumulateCounts(acc, init, guest, id);
      CountTally(Accumulate(acc, init, guest), rows[|rows| - 1], guest, id);
    }
  }

  /** A product is a key exactly when some row of it is counted. */
  lemma {:induction false} AccumulateKeys(acc: Interactions, rows: seq<Grouped>, guest: bool, id: int)
    ensures id in Accumulate(acc, rows, guest).tallies <==>
      id in acc.tallies || exists i :: 0 <= i < |rows| && rows[i].productId == id && CounterOf(rows[i].kind, guest).Some?
  {
    if rows != [] {
      var init := rows[..|rows| - 1];
      AccumulateKeys(acc, init, guest, id);
      if exists i :: 0 <= i < |init| && init[i].productId == id && CounterOf(init[i].kind, guest).Some? {
        var i :| 0 <= i < |init| && init[i].productId == id && CounterOf(init[i].kind, guest).Some?;
        assert rows[i] == init[i];
      }
    }
  }

  /**
   * The aggregated tally of a product: views and clicks from users and
   * guests, cart additions from guests only, purchases from users only.
   */
  lemma AggregateTally(userRows: seq<Grouped>, guestRows: seq<Grouped>, id: int)
    ensures Wf(Aggregate(userRows, guestRows))
    ensures TallyOf(Aggregate(userRows, guestRows), id) == Tally(
      Sum(userRows, id, "view") + Sum(guestRows, id, "view"),
      Sum(userRows, id, "click") + Sum(guestRows, id, "click"),
      Sum(guestRows, id, "add_to_cart"),
      Sum(userRows, id, "purchase"))
  {
    AccumulateWf(NoInteractions, userRows, false);
    AccumulateWf(Accumulate(NoInteractions, userRows, false), guestRows, true);
    AccumulateCounts(NoInteractions, userRows, false, id);
    AccumulateCounts(Accumulate(NoInteractions, userRows, false), guestRows, true, id);
  }

  /** A product is aggregated exactly when it has a counted user row or a counted guest row. */
  lemma AggregateKeys(userRows: seq<Grouped>, guestRows: seq<Grouped>, id: int)
    ensures id in Aggregate(userRows, guestRows).tallies <==>
      || (exists i :: 0 <= i < |userRows| && userRows[i].productId == id && userRows[i].kind in {"view", "click", "purchase"})
      || (exists i :: 0 <= i < |guestRows| && guestRows[i].productId == id && guestRows[i].kind in {"view", "click", "add_to_cart"})
  {
    AccumulateKeys(NoInteractions, userRows, false, id);
    AccumulateKeys(Accumulate(NoInteractions, userRows, false), guestRows, true, id);
  }

  /** A product's trend: its score and its per-hour velocities. */
  datatype Trend = Trend(productId: int, score: real, viewVelocity: real, purchaseVelocity: real, cartVelocity: real)

  /** Interactions per hour of the window. */
  function Velocity(n: nat, hours: int): real
    requires hours != 0
  {
    n as real / hours as real
  }

  /** The boost for `recent` interactions in the last six hours: 1 + 0.1·ln(1 + recent), or exactly 1 with none. */
  function RecencyBoost(recent: nat, log1p: nat -> real): real {
    if recent > 0 then 1.0 + log1p(recent) * 0.1 else 1.0
  }

  /** No recent interaction leaves the score as it is; each further one raises the boost. */
  lemma RecencyBoostBounds(log1p: nat -> real, m: nat, n: nat)
    requires IsLog1p(log1p)
    ensures RecencyBoost(0, log1p) == 1.0
    ensures n > 0 ==> RecencyBoost(n, log1p) > 1.0
    ensures m < n ==> RecencyBoost(m, log1p) < RecencyBoost(n, log1p)
  {
    Log1pPositive(log1p, n);
    Log1pPositive(log1p, m);
    if 0 < m < n {
      assert log1p(m) < log1p(n);
    }
  }

  /** The weighted velocity of a tally, boosted. */
  function TrendScore(t: Tally, hours: int, boost: real): real
    requires hours != 0
  {
    (Velocity(t.views, hours) * 1.0 + Velocity(t.clicks, hours) * 2.0
     + Velocity(t.carts, hours) * 5.0 + Velocity(t.purchases, hours) * 10.0) * boost
  }

  /** Interactions weighted 1 per view, 2 per click, 5 per cart addition and 10 per purchase. */
  function Weight(t: Tally): nat {
    t.views + 2 * t.clicks + 5 * t.carts + 10 * t.purchases
  }

  /** The weighted interaction count per hour, times the boost. */
  function BoostedRate(t: Tally, hours: int, boost: real): real
    requires hours != 0
  {
    Weight(t) as real / hours as real * boost
  }

  /** The score is the weighted interaction count per hour, times the boost. */
  lemma TrendScoreWeighted(t: Tally, hours: int, boost: real)
    requires hours != 0
    ensures TrendScore(t, hours, boost) == BoostedRate(t, hours, boost)
  {
    var h := hours as real;
    assert Velocity(t.views, hours) * 1.0 + Velocity(t.clicks, hours) * 2.0
       + Velocity(t.carts, hours) * 5.0 + Velocity(t.purchases, hours) * 10.0
       == (t.views as real + 2.0 * t.clicks as real + 5.0 * t.carts as real + 10.0 * t.purchases as real) / h;
  }

  /** Over a positive window with a boost of at least 1, more weighted interactions never score less. */
  lemma {:induction false} TrendScoreMonotone(t: Tally, u: Tally, hours: int, boost: real)
    requires hours > 0 && boost >= 1.0
    requires Weight(t) <= Weight(u)
    ensures 0.0 <= TrendScore(t, hours, boost) <= TrendScore(u, hours, boost)
  {
    TrendScoreWeighted(t, hours, boost);
    TrendScoreWeighted(u, hours, boost);
    BoostedRateMonotone(t, u, hours, boost);
  }

  lemma BoostedRateMonotone(t: Tally, u: Tally, hours: int, boost: real)
    requires hours > 0 && boost >= 1.0
    requires Weight(t) <= Weight(u)
    ensures 0.0 <= BoostedRate(t, hours, boost) <= BoostedRate(u, hours, boost)
  {
    var h := hours as real;
    var x := Weight(t) as real / h;
    var y := Weight(u) as real / h;
    assert 0.0 <= x <= y;
    assert y * boost - x * boost == (y - x) * boost;
    assert 0.0 <= x * boost;
  }

  /** The trend of an aggregated product. */
  function TrendOf(id: int, t: Tally, hours: int, boost: real): Trend
    requires hours != 0
  {
    Trend(id, TrendScore(t, hours, boost), Velocity(t.views, hours), Velocity(t.purchases, hours), Velocity(t.carts, hours))
  }

  /**
   * The trends of the aggregated products, in aggregation order; `recent`
   * gives each product's interactions in the last six hours. A zero-hour
   * window divides by zero as soon as there is a product to score.
   */
  function Trends(agg: Interactions, hours: int, recent: int -> nat, log1p: nat -> real): Result<seq<Trend>> {
    if agg.order == [] then Ok([])
    else if hours == 0 then Err(ZeroDivisionError)
    else Ok(seq(|agg.order|, i requires 0 <= i < |agg.order| =>
      TrendOf(agg.order[i], TallyOf(agg, agg.order[i]), hours, RecencyBoost(recent(agg.order[i]), log1p))))
  }

  /** The scoring loop: one trend appended per aggregated product. */
  method ScoreTrends(agg: Interactions, hours: int, recent: int -> nat, log1p: nat -> real)
    returns (r: Result<seq<Trend>>)
    ensures r == Trends(agg, hours, recent, log1p)
  {
    if agg.order == [] {
      return Ok([]);
    }
    if hours == 0 {
      return Err(ZeroDivisionError);
    }
    var trends: seq<Trend> := [];
    for i := 0 to |agg.order|
      invariant |trends| == i
      invariant forall j :: 0 <= j < i ==>
        trends[j] == TrendOf(agg.order[j], TallyOf(agg, agg.order[j]), hours, RecencyBoost(recent(agg.order[j]), log1p))
    {
      var id := agg.order[i];
      var t := TallyOf(agg, id);
      var boost := RecencyBoost(recent(id), log1p);
      trends := trends + [Trend(id, TrendScore(t, hours, boost), Velocity(t.views, hours),
                                Velocity(t.purchases, hours), Velocity(t.carts, hours))];
    }
    assert trends == Trends(agg, hours, recent, log1p).value;
    r := Ok(trends);
  }

  /** Scoring fails exactly on a zero window with products to score; otherwise one trend per product, in order. */
  lemma TrendsOutcome(agg: Interactions, hours: int, recent: int -> nat, log1p: nat -> real)
    ensures var r := Trends(agg, hours, recent, log1p);
      && (r.Err? <==> hours == 0 && agg.order != [])
      && (r.Err? ==> r.error == ZeroDivisionError)
      && (r.Ok? ==> |r.value| == |agg.order| && forall i :: 0 <= i < |r.value| ==> r.value[i].productId == agg.order[i])
  {
  }

  /** Each product's score is its weighted interaction count per hour, times its recency boost. */
  lemma {:induction false} TrendsScores(agg: Interactions, hours: int, recent: int -> nat, log1p: nat -> real, i: nat)
    requires hours != 0 && i < |agg.order|
    ensures Trends(agg, hours, recent, log1p).value[i].score
      == BoostedRate(TallyOf(agg, agg.order[i]), hours, RecencyBoost(recent(agg.order[i]), log1p))
  {
    var id := agg.order[i];
    TrendsAt(agg, hours, recent, log1p, i);
    TrendOfScore(id, TallyOf(agg, id), hours, RecencyBoost(recent(id), log1p));
  }

  lemma TrendsAt(agg: Interactions, hours: int, recent: int -> nat, log1p: nat -> real, i: nat)
    requires hours != 0 && i < |agg.order|
    ensures Trends(agg, hours, recent, log1p).Ok?
    ensures |Trends(agg, hours, recent, log1p).value| == |agg.order|
    ensures Trends(agg, hours, recent, log1p).value[i]
      == TrendOf(agg.order[i], TallyOf(agg, agg.order[i]), hours, RecencyBoost(recent(agg.order[i]), log1p))
  {
  }

  lemma TrendOfScore(id: int, t: Tally, hours: int, boost: real)
    requires hours != 0
    ensures TrendOf(id, t, hours, boost).score == BoostedRate(t, hours, boost)
  {
    TrendScoreWeighted(t, hours, boost);
  }

  function TrendKey(t: Trend): real {
    t.score
  }

  /** `sort(key=trending_score, reverse=True)`: stable, highest score first. */
  function SortTrends(trends: seq<Trend>): seq<Trend> {
    Items(SortDesc(seq(|trends|, i requires 0 <= i < |trends| => Scored(TrendKey(trends[i]), trends[i]))))
  }

  /** The sorted trends are the same trends. */
  lemma {:induction false} SortTrendsPermutation(trends: seq<Trend>)
    ensures multiset(SortTrends(trends)) == multiset(trends)
  {
    var scored := seq(|trends|, i requires 0 <= i < |trends| => Scored(TrendKey(trends[i]), trends[i]));
    ItemsMultiset(scored, SortDesc(scored));
    assert Items(scored) == trends;
  }

  /** The sorted trends are in non-increasing score. */
  lemma {:induction false} SortTrendsOrdered(trends: seq<Trend>)
    ensures forall i, j :: 0 <= i < j < |SortTrends(trends)| ==> SortTrends(trends)[i].score >= SortTrends(trends)[j].score
  {
    var scored := seq(|trends|, i requires 0 <= i < |trends| => Scored(TrendKey(trends[i]), trends[i]));
    var sorted := SortDesc(scored);
    forall i, j | 0 <= i < j < |sorted| ensures sorted[i].item.score >= sorted[j].item.score {
      assert sorted[i] in multiset(scored) && sorted[j] in multiset(scored);
      assert sorted[i] in scored && sorted[j] in scored;
    }
  }


  /** A stored trending row; the category is None for the overall list. */
  datatype TrendingRow = TrendingRow(
    productId: int,
    category: Option<string>,
    score: real,
    viewVelocity: real,
    purchaseVelocity: real,
    cartVelocity: real,
    rank: nat)

  /** Trending rows are stored under their category alone. */
  function TrendingKey(r: TrendingRow): Option<string> {
    r.category
  }

  /** The rows for ranked trends: ranks 1, 2, ... in the order given. */
  function TrendingRows(trends: seq<Trend>, category: Option<string>): seq<TrendingRow> {
    seq(|trends|, i requires 0 <= i < |trends| =>
      TrendingRow(trends[i].productId, category, trends[i].score, trends[i].viewVelocity,
                  trends[i].purchaseVelocity, trends[i].cartVelocity, i + 1))
  }

  /** The ids of the catalogue products of category `c`. */
  function ProductIds(catalog: seq<Product>, c: Option<string>): set<int> {
    set p | p in catalog && p.category == c :: p.id
  }

  /** The trends of the given products, in their order. */
  function InProducts(trends: seq<Trend>, ids: set<int>): seq<Trend> {
    if trends == [] then []
    else
      var t := trends[|trends| - 1];
      InProducts(trends[..|trends| - 1], ids) + (if t.productId in ids then [t] else [])
  }

  /** The filter keeps exactly the trends of the given products. */
  lemma {:induction false} InProductsMembers(trends: seq<Trend>, ids: set<int>)
    ensures forall t :: t in InProducts(trends, ids) <==> t in trends && t.productId in ids
  {
    if trends != [] {
      InProductsMembers(trends[..|trends| - 1], ids);
      assert trends == trends[..|trends| - 1] + [trends[|trends| - 1]];
    }
  }

  /** The filter keeps a non-increasing order non-increasing. */
  lemma {:induction false} InProductsOrdered(trends: seq<Trend>, ids: set<int>)
    requires forall i, j :: 0 <= i < j < |trends| ==> trends[i].score >= trends[j].score
    ensures forall i, j :: 0 <= i < j < |InProducts(trends, ids)| ==> InProducts(trends, ids)[i].score >= InProducts(trends, ids)[j].score
  {
    if trends != [] {
      var init := trends[..|trends| - 1];
      var t := trends[|trends| - 1];
      InProductsOrdered(init, ids);
      InProductsMembers(init, ids);
      var f := InProducts(init, ids);
      forall k | 0 <= k < |f| ensures f[k].score >= t.score {
        var i :| 0 <= i < |init| && init[i] == f[k];
      }
    }
  }

  /** The overall list, then one list per category of `cats` (at most 20 products each). */
  function TrendingSteps(sorted: seq<Trend>, catalog: seq<Product>, cats: seq<Option<string>>, topN: nat)
    : seq<Step<TrendingRow, Option<string>>>
  {
    [Step(None, TrendingRows(Take(sorted, topN), None))]
    + seq(|cats|, j requires 0 <= j < |cats| =>
        Step(cats[j], TrendingRows(Take(InProducts(sorted, ProductIds(catalog, cats[j])), 20), cats[j])))
  }

  /**
   * `calculate_trending_products` on the stored table: the grouped rows of
   * the two interaction queries, the catalogue, each product's count of
   * interactions in the last six hours and the logarithm are inputs.
   */
  function TrendingRollup(table: seq<TrendingRow>, userRows: seq<Grouped>, guestRows: seq<Grouped>,
                          catalog: seq<Product>, hours: int, topN: nat, recent: int -> nat, log1p: nat -> real)
    : Result<seq<TrendingRow>>
  {
    match Trends(Aggregate(userRows, guestRows), hours, recent, log1p)
    case Err(e) => Err(e)
    case Ok(trends) => Ok(Publish(table, TrendingKey, TrendingSteps(SortTrends(trends), catalog, Categories(catalog), topN)))
  }

  /** Inserting ranked rows: `enumerate(trends, 1)`, one row added per trend. */
  method InsertTrending(table: seq<TrendingRow>, trends: seq<Trend>, category: Option<string>)
    returns (t: seq<TrendingRow>)
    ensures t == table + TrendingRows(trends, category)
  {
    t := table;
    var rank := 1;
    while rank <= |trends|
      invariant 1 <= rank <= |trends| + 1
      invariant t == table + TrendingRows(trends[..rank - 1], category)
    {
      var x := trends[rank - 1];
      var row := TrendingRow(x.productId, category, x.score, x.viewVelocity, x.purchaseVelocity, x.cartVelocity, rank);
      assert TrendingRows(trends[..rank], category) == TrendingRows(trends[..rank - 1], category) + [row];
      t := t + [row];
      rank := rank + 1;
    }
    assert trends[..|trends|] == trends;
  }

  lemma TrendingStepAt(sorted: seq<Trend>, catalog: seq<Product>, cats: seq<Option<string>>, topN: nat, j: nat)
    requires j <= |cats|
    ensures var steps := TrendingSteps(sorted, catalog, cats, topN);
      && |steps| == |cats| + 1
      && steps[0] == Step(None, TrendingRows(Take(sorted, topN), None))
      && (j < |cats| ==> steps[j + 1] == Step(cats[j], TrendingRows(Take(InProducts(sorted, ProductIds(catalog, cats[j])), 20), cats[j])))
  {
  }

  method CalculateTrendingProducts(table: seq<TrendingRow>, userRows: seq<Grouped>, guestRows: seq<Grouped>,
                                   catalog: seq<Product>, hours: int, topN: nat, recent: int -> nat, log1p: nat -> real)
    returns (r: Result<seq<TrendingRow>>)
    ensures r == TrendingRollup(table, userRows, guestRows, catalog, hours, topN, recent, log1p)
  {
    var agg := AggregateInteractions(userRows, guestRows);
    var scored := ScoreTrends(agg, hours, recent, log1p);
    if scored.Err? {
      return Err(scored.error);
    }
    var sorted := SortTrends(scored.value);
    var cats := Categories(catalog);
    ghost var steps := TrendingSteps(sorted, catalog, cats, topN);
    var t := Without(table, TrendingKey, None);
    t := InsertTrending(t, Take(sorted, topN), None);
    TrendingStepAt(sorted, catalog, cats, topN, 0);
    PublishNext(table, TrendingKey, steps, 0);
    assert steps[..0] == [];
    for j := 0 to |cats|
      invariant t == Publish(table, TrendingKey, steps[..j + 1])
    {
      var c := cats[j];
      var ids := set p | p in catalog && p.category == c :: p.id;
      TrendingStepAt(sorted, catalog, cats, topN, j);
      PublishNext(table, TrendingKey, steps, j + 1);
      t := Without(t, TrendingKey, c);
      t := InsertTrending(t, Take(InProducts(sorted, ids), 20), c);
    }
    assert steps[..|cats| + 1] == steps;
    r := Ok(t);
  }

  lemma TrendingStepsKeyed(sorted: seq<Trend>, catalog: seq<Product>, cats: seq<Option<string>>, topN: nat)
    ensures WellKeyed(TrendingSteps(sorted, catalog, cats, topN), TrendingKey)
  {
  }

  /** A listed category's key holds the first 20 of its products' trends, in sorted order. */
  lemma TrendingCategory(table: seq<TrendingRow>, sorted: seq<Trend>, catalog: seq<Product>,
                         cats: seq<Option<string>>, topN: nat, j: nat)
    requires Distinct(cats) && j < |cats|
    ensures Keyed(Publish(table, TrendingKey, TrendingSteps(sorted, catalog, cats, topN)), TrendingKey, cats[j])
      == TrendingRows(Take(InProducts(sorted, ProductIds(catalog, cats[j])), 20), cats[j])
  {
    var steps := TrendingSteps(sorted, catalog, cats, topN);
    TrendingStepsKeyed(sorted, catalog, cats, topN);
    TrendingStepAt(sorted, catalog, cats, topN, j);
    forall i | j + 1 < i < |steps| ensures steps[i].key != cats[j] {
      TrendingStepAt(sorted, catalog, cats, topN, i - 1);
    }
    PublishedAt(table, TrendingKey, steps, cats[j], j + 1);
  }

  /** With None not listed as a category, the overall key holds the first `topN` sorted trends. */
  lemma TrendingOverall(table: seq<TrendingRow>, sorted: seq<Trend>, catalog: seq<Product>,
                        cats: seq<Option<string>>, topN: nat)
    requires None !in cats
    ensures Keyed(Publish(table, TrendingKey, TrendingSteps(sorted, catalog, cats, topN)), TrendingKey, None)
      == TrendingRows(Take(sorted, topN), None)
  {
    var steps := TrendingSteps(sorted, catalog, cats, topN);
    TrendingStepsKeyed(sorted, catalog, cats, topN);
    TrendingStepAt(sorted, catalog, cats, topN, 0);
    forall i | 0 < i < |steps| ensures steps[i].key != None {
      TrendingStepAt(sorted, catalog, cats, topN, i - 1);
    }
    PublishedAt(table, TrendingKey, steps, None, 0);
  }

  /** A category that is not listed, other than None, keeps its old rows. */
  lemma TrendingUntouched(table: seq<TrendingRow>, sorted: seq<Trend>, catalog: seq<Product>,
                          cats: seq<Option<string>>, topN: nat, k: Option<string>)
    requires k != None && k !in cats
    ensures Keyed(Publish(table, TrendingKey, TrendingSteps(sorted, catalog, cats, topN)), TrendingKey, k)
      == Keyed(table, TrendingKey, k)
  {
    var steps := TrendingSteps(sorted, catalog, cats, topN);
    TrendingStepsKeyed(sorted, catalog, cats, topN);
    forall i | 0 <= i < |steps| ensures steps[i].key != k {
      TrendingStepAt(sorted, catalog, cats, topN, if i == 0 then 0 else i - 1);
    }
    PublishedNone(table, TrendingKey, steps, k);
  }

  /** Running the trending rollup twice on the same data leaves the table as running it once. */
  lemma TrendingIdempotent(table: seq<TrendingRow>, userRows: seq<Grouped>, guestRows: seq<Grouped>,
                           catalog: seq<Product>, hours: int, topN: nat, recent: int -> nat, log1p: nat -> real)
    requires TrendingRollup(table, userRows, guestRows, catalog, hours, topN, recent, log1p).Ok?
    ensures var once := TrendingRollup(table, userRows, guestRows, catalog, hours, topN, recent, log1p).value;
      TrendingRollup(once, userRows, guestRows, catalog, hours, topN, recent, log1p) == Ok(once)
  {
    var trends := Trends(Aggregate(userRows, guestRows), hours, recent, log1p).value;
    var steps := TrendingSteps(SortTrends(trends), catalog, Categories(catalog), topN);
    TrendingStepsKeyed(SortTrends(trends), catalog, Categories(catalog), topN);
    PublishIdempotent(table, TrendingKey, steps);
  }

  /**
   * Stored trending rows rank 1, 2, ... in non-increasing score, at most
   * `n` of them, each copying a trend of the list.
   */
  lemma {:induction false} TrendingRanks(trends: seq<Trend>, n: nat, category: Option<string>)
    requires forall i, j :: 0 <= i < j < |trends| ==> trends[i].score >= trends[j].score
    ensures var rows := TrendingRows(Take(trends, n), category);
      && |rows| <= n
      && (forall i :: 0 <= i < |rows| ==> rows[i].rank == i + 1)
      && (forall i, j :: 0 <= i < j < |rows| ==> rows[i].score >= rows[j].score)
      && (forall i :: 0 <= i < |rows| ==>
            Trend(rows[i].productId, rows[i].score, rows[i].viewVelocity, rows[i].purchaseVelocity, rows[i].cartVelocity) == trends[i])
  {
    var top := Take(trends, n);
    assert forall i :: 0 <= i < |top| ==> top[i] == trends[i];
  }

  /**
   * A category's stored trending rows: the category's products in the
   * overall order, at most 20 of them, ranked from 1.
   */
  lemma CategoryTrending(trends: seq<Trend>, catalog: seq<Product>, c: Option<string>)
    requires forall i, j :: 0 <= i < j < |trends| ==> trends[i].score >= trends[j].score
    ensures var rows := TrendingRows(Take(InProducts(trends, ProductIds(catalog, c)), 20), c);
      && |rows| <= 20
      && (forall i :: 0 <= i < |rows| ==> rows[i].rank == i + 1)
      && (forall i, j :: 0 <= i < j < |rows| ==> rows[i].score >= rows[j].score)
  {
    var f := InProducts(trends, ProductIds(catalog, c));
    InProductsOrdered(trends, ProductIds(catalog, c));
    TrendingRanks(f, 20, c);
  }

  /** Every stored trending row of a category is an overall trend of one of the category's products. */
  lemma CategoryTrendingMembers(trends: seq<Trend>, catalog: seq<Product>, c: Option<string>)
    ensures var rows := TrendingRows(Take(InProducts(trends, ProductIds(catalog, c)), 20), c);
      forall i :: 0 <= i < |rows| ==>
        Trend(rows[i].productId, rows[i].score, rows[i].viewVelocity, rows[i].purchaseVelocity, rows[i].cartVelocity) in trends
        && exists p :: p in catalog && p.category == c && p.id == rows[i].productId
  {
    var f := InProducts(trends, ProductIds(catalog, c));
    InProductsMembers(trends, ProductIds(catalog, c));
    var top := Take(f, 20);
    assert forall i :: 0 <= i < |top| ==> top[i] == f[i];
    var rows := TrendingRows(top, c);
    forall i | 0 <= i < |rows|
      ensures Trend(rows[i].productId, rows[i].score, rows[i].viewVelocity, rows[i].purchaseVelocity, rows[i].cartVelocity) in trends
      ensures exists p :: p in catalog && p.category == c && p.id == rows[i].productId
    {
      var t := f[i];
      assert t in f;
      assert Trend(rows[i].productId, rows[i].score, rows[i].viewVelocity, rows[i].purchaseVelocity, rows[i].cartVelocity) == t;
      assert t.productId in ProductIds(catalog, c);
      var p :| p in catalog && p.category == c && p.id == t.productId;
    }
  }

  // ---------------------------------------------------------------------
  // Products without a category

  /** The category of every catalogue product is listed. */
  lemma CategoriesListed(catalog: seq<Product>, p: Product)
    requires p in catalog
    ensures p.category in Categories(catalog) && Distinct(Categories(catalog))
  {
    var k :| 0 <= k < |catalog| && catalog[k] == p;
    var all := seq(|catalog|, i requires 0 <= i < |catalog| => catalog[i].category);
    assert all[k] == p.category;
  }

  /** Every row of a category's best-seller list is for a catalogue product of that category. */
  lemma CategoryBestSellersMembers(lines: seq<OrderLine>, catalog: seq<Product>, c: Option<string>,
                                   window: string, now: int, i: nat)
    requires i < |CategoryBestSellers(lines, catalog, c, window, now)|
    ensures CategoryOf(catalog, CategoryBestSellers(lines, catalog, c, window, now)[i].productId) == Some(c)
  {
    var inCat := InCategory(Since(lines, WindowStart(window, now)), catalog, c);
    var sales := Sales(inCat);
    var top := TopSales(sales, 20);
    var id := CategoryBestSellers(lines, catalog, c, window, now)[i].productId;
    assert id == top[i].productId;
    TopSalesFacts(sales, 20);
    assert top[i] in sales;
    var k :| 0 <= k < |sales| && sales[k] == top[i];
    SalesGroups(inCat, id);
    var l :| l in inCat && l.productId == id;
  }

  /**
   * The rollup as written, when some catalogue product has no category:
   * the null category is listed, its delete removes the overall rows
   * (stored with category None) and its insert takes their place, so the
   * stored overall list holds only products without a category.
   */
  lemma BestSellersNullCategory(table: seq<BestSeller>, lines: seq<OrderLine>, catalog: seq<Product>,
                                window: string, now: int, topN: nat, p: Product)
    requires p in catalog && p.category == None
    ensures var stored := Keyed(Publish(table, BestSellerKey, BestSellerSteps(lines, catalog, Categories(catalog), window, now, topN)),
                                BestSellerKey, (window, None));
      && stored == CategoryBestSellers(lines, catalog, None, window, now)
      && forall i :: 0 <= i < |stored| ==> CategoryOf(catalog, stored[i].productId) == Some(None)
  {
    var cats := Categories(catalog);
    CategoriesListed(catalog, p);
    var j :| 0 <= j < |cats| && cats[j] == None;
    BestSellersCategory(table, lines, catalog, cats, window, now, topN, j);
    forall i | 0 <= i < |CategoryBestSellers(lines, catalog, None, window, now)|
      ensures CategoryOf(catalog, CategoryBestSellers(lines, catalog, None, window, now)[i].productId) == Some(None)
    {
      CategoryBestSellersMembers(lines, catalog, None, window, now, i);
    }
  }

  /** The categories that have a name, each once. */
  function NamedCategories(catalog: seq<Product>): (r: seq<Option<string>>)
    ensures None !in r && Distinct(r)
    ensures forall c :: c in r <==> c != None && c in Categories(catalog)
  {
    Dedup(Named(Categories(catalog)))
  }

  function Named(cats: seq<Option<string>>): (r: seq<Option<string>>)
    ensures forall c :: c in r <==> c != None && c in cats
  {
    if cats == [] then []
    else
      var c := cats[|cats| - 1];
      Named(cats[..|cats| - 1]) + (if c != None then [c] else [])
  }

  /** The best-seller rollup with the category lists limited to named categories. */
  function CorrectedBestSellerSteps(lines: seq<OrderLine>, catalog: seq<Product>, window: string, now: int, topN: nat)
    : seq<Step<BestSeller, (string, Option<string>)>>
  {
    BestSellerSteps(lines, catalog, NamedCategories(catalog), window, now, topN)
  }

  /**
   * With only named categories listed, the overall key always holds the
   * overall list, and each named category its own list.
   */
  lemma CorrectedBestSellersKeepOverall(table: seq<BestSeller>, lines: seq<OrderLine>, catalog: seq<Product>,
                                        window: string, now: int, topN: nat, c: Option<string>)
    ensures Keyed(Publish(table, BestSellerKey, CorrectedBestSellerSteps(lines, catalog, window, now, topN)), BestSellerKey, (window, None))
      == OverallBestSellers(lines, window, now, topN)
    ensures c != None && c in Categories(catalog) ==>
      Keyed(Publish(table, BestSellerKey, CorrectedBestSellerSteps(lines, catalog, window, now, topN)), BestSellerKey, (window, c))
      == CategoryBestSellers(lines, catalog, c, window, now)
  {
    var cats := NamedCategories(catalog);
    BestSellersOverall(table, lines, catalog, cats, window, now, topN);
    if c != None && c in Categories(catalog) {
      var j :| 0 <= j < |cats| && cats[j] == c;
      BestSellersCategory(table, lines, catalog, cats, window, now, topN, j);
    }
  }

  /**
   * The trending rollup as written, when some catalogue product has no
   * category: the overall rows are replaced by the trends of the products
   * without a category.
   */
  lemma TrendingNullCategory(table: seq<TrendingRow>, sorted: seq<Trend>, catalog: seq<Product>, topN: nat, p: Product)
    requires p in catalog && p.category == None
    ensures var stored := Keyed(Publish(table, TrendingKey, TrendingSteps(sorted, catalog, Categories(catalog), topN)), TrendingKey, None);
      && stored == TrendingRows(Take(InProducts(sorted, ProductIds(catalog, None)), 20), None)
      && forall i :: 0 <= i < |stored| ==> exists q :: q in catalog && q.category == None && q.id == stored[i].productId
  {
    var cats := Categories(catalog);
    CategoriesListed(catalog, p);
    var j :| 0 <= j < |cats| && cats[j] == None;
    TrendingCategory(table, sorted, catalog, cats, topN, j);
    var f := InProducts(sorted, ProductIds(catalog, None));
    InProductsMembers(sorted, ProductIds(catalog, None));
    var rows := TrendingRows(Take(f, 20), None);
    forall i | 0 <= i < |rows| ensures exists q :: q in catalog && q.category == None && q.id == rows[i].productId {
      assert f[i] in f;
    }
  }

  /** The trending rollup with the category lists limited to named categories. */
  function CorrectedTrendingSteps(sorted: seq<Trend>, catalog: seq<Product>, topN: nat): seq<Step<TrendingRow, Option<string>>> {
    TrendingSteps(sorted, catalog, NamedCategories(catalog), topN)
  }

  /** With only named categories listed, the overall key always holds the first `topN` sorted trends. */
  lemma CorrectedTrendingKeepsOverall(table: seq<TrendingRow>, sorted: seq<Trend>, catalog: seq<Product>, topN: nat, c: Option<string>)
    ensures Keyed(Publish(table, TrendingKey, CorrectedTrendingSteps(sorted, catalog, topN)), TrendingKey, None)
      == TrendingRows(Take(sorted, topN), None)
    ensures c != None && c in Categories(catalog) ==>
      Keyed(Publish(table, TrendingKey, CorrectedTrendingSteps(sorted, catalog, topN)), TrendingKey, c)
      == TrendingRows(Take(InProducts(sorted, ProductIds(catalog, c)), 20), c)
  {
    var cats := NamedCategories(catalog);
    TrendingOverall(table, sorted, catalog, cats, topN);
    if c != None && c in Categories(catalog) {
      var j :| 0 <= j < |cats| && cats[j] == c;
      TrendingCategory(table, sorted, catalog, cats, topN, j);
    }
  }
}
