/**
 * The category hierarchy of the data model: a table of categories, each
 * with an optional parent, walked upwards for paths, breadcrumbs and depths
 * and downwards for the products of a whole subtree.
 *
 * The walks terminate only on a hierarchy without cycles; callers supply a
 * ghost `rank` that strictly decreases from child to parent as evidence.
 */
module CategoryTree {
  import opened Common
  import Models

  datatype Category = Category(id: int, name: string, parentId: Option<int>)

  /** The category table, by primary key. */
  type Table = map<int, Category>

  predicate WellKeyed(t: Table) {
    forall k :: k in t ==> t[k].id == k
  }

  /** `category.parent`: the row that `parent_id` refers to, when there is one. */
  function Parent(t: Table, id: int): (r: Option<int>)
    requires id in t
    ensures r.Some? ==> r.value in t && t[id].parentId == Some(r.value)
  {
    match t[id].parentId
    case Some(p) => if p in t then Some(p) else None
    case None => None
  }

  /** Every parent has a smaller rank than its children: there are no cycles. */
  ghost predicate Ranked(t: Table, rank: map<int, nat>) {
    && WellKeyed(t)
    && forall k :: k in t ==> k in rank && (Parent(t, k).Some? ==> Parent(t, k).value in rank && rank[Parent(t, k).value] < rank[k])
  }

  /** `is_main_category` */
  predicate IsMainCategory(c: Category) {
    c.parentId.None?
  }

  /**
   * The categories from the root down to `id`: each one the parent of the
   * next, the first without a parent and the last `id` itself.
   */
  ghost function PathOf(t: Table, rank: map<int, nat>, id: int): (r: seq<Category>)
    requires Ranked(t, rank) && id in t
    ensures |r| >= 1 && r[|r| - 1] == t[id]
    ensures forall i :: 0 <= i < |r| ==> r[i].id in t && t[r[i].id] == r[i]
    ensures Parent(t, r[0].id) == None
    ensures forall i :: 0 < i < |r| ==> Parent(t, r[i].id) == Some(r[i - 1].id)
    decreases rank[id]
  {
    match Parent(t, id)
    case None => [t[id]]
    case Some(p) => PathOf(t, rank, p) + [t[id]]
  }

  /** `get_path`: walks the parent links, inserting each category at the front. */
  method GetPath(t: Table, id: int, ghost rank: map<int, nat>) returns (path: seq<Category>)
    requires Ranked(t, rank) && id in t
    ensures path == PathOf(t, rank, id)
  {
    path := [];
    var current := Some(id);
    while current.Some?
      invariant current.Some? ==> current.value in t
      invariant PathOf(t, rank, id) == (if current.Some? then PathOf(t, rank, current.value) else []) + path
      decreases if current.Some? then rank[current.value] + 1 else 0
    {
      var c := current.value;
      path := [t[c]] + path;
      current := Parent(t, c);
    }
  }

  /** `get_depth`: the number of parent links above `id`. */
  method GetDepth(t: Table, id: int, ghost rank: map<int, nat>) returns (depth: nat)
    requires Ranked(t, rank) && id in t
    ensures depth == |PathOf(t, rank, id)| - 1
  {
    depth := 0;
    var current := id;
    while Parent(t, current).Some?
      invariant current in t
      invariant depth + |PathOf(t, rank, current)| == |PathOf(t, rank, id)|
      decreases rank[current]
    {
      depth := depth + 1;
      current := Parent(t, current).value;
    }
  }

  /** A main category is its own path, at depth 0. */
  lemma MainCategoryPath(t: Table, rank: map<int, nat>, id: int)
    requires Ranked(t, rank) && id in t
    requires IsMainCategory(t[id])
    ensures PathOf(t, rank, id) == [t[id]]
  {
  }

  /** A child is one level below its parent. */
  lemma ChildDepth(t: Table, rank: map<int, nat>, c: int)
    requires Ranked(t, rank) && c in t && Parent(t, c).Some?
    ensures |PathOf(t, rank, c)| == |PathOf(t, rank, Parent(t, c).value)| + 1
  {
  }

  function Names(path: seq<Category>): (r: seq<string>)
    ensures |r| == |path|
    ensures forall i :: 0 <= i < |path| ==> r[i] == path[i].name
  {
    if path == [] then [] else Names(path[..|path| - 1]) + [path[|path| - 1].name]
  }

  const Separator: string := " > "

  /** `get_breadcrumb`: the names along the path, joined with " > ". */
  method GetBreadcrumb(t: Table, id: int, ghost rank: map<int, nat>) returns (s: string)
    requires Ranked(t, rank) && id in t
    ensures s == Join(Names(PathOf(t, rank, id)), Separator)
  {
    var path := GetPath(t, id, rank);
    s := Join(Names(path), Separator);
  }

  /**
   * A category's breadcrumb is its parent's followed by its own name, and a
   * main category's is its name alone.
   */
  lemma BreadcrumbStep(t: Table, rank: map<int, nat>, c: int)
    requires Ranked(t, rank) && c in t
    ensures Parent(t, c).None? ==> Join(Names(PathOf(t, rank, c)), Separator) == t[c].name
    ensures Parent(t, c).Some? ==>
      Join(Names(PathOf(t, rank, c)), Separator)
        == Join(Names(PathOf(t, rank, Parent(t, c).value)), Separator) + Separator + t[c].name
  {
    if Parent(t, c).Some? {
      var pp := PathOf(t, rank, Parent(t, c).value);
      assert PathOf(t, rank, c) == pp + [t[c]];
      assert Names(pp + [t[c]]) == Names(pp) + [t[c].name];
      assert (Names(pp) + [t[c].name])[..|pp|] == Names(pp);
    }
  }

  /**
   * `validate_depth`: refuses a category whose parent (looked up only when
   * `parent_id` is truthy, i.e. present and non-zero) already sits at depth
   * `max_depth - 1` or deeper.
   */
  method ValidateDepth(t: Table, c: Category, maxDepth: int, ghost rank: map<int, nat>) returns (r: Outcome)
    requires Ranked(t, rank)
    ensures r.Fail? <==>
      && c.parentId.Some? && c.parentId.value != 0 && c.parentId.value in t
      && |PathOf(t, rank, c.parentId.value)| - 1 >= maxDepth - 1
    ensures r.Fail? ==> r.error.ValueError?
    ensures r == Pass && c.parentId.Some? && c.parentId.value != 0 && c.parentId.value in t ==>
      |PathOf(t, rank, c.parentId.value)| + 1 <= maxDepth
  {
    r := Pass;
    if c.parentId.Some? && c.parentId.value != 0 {
      var p := c.parentId.value;
      if p in t {
        var d := GetDepth(t, p, rank);
        if d >= maxDepth - 1 {
          r := Fail(ValueError("Category depth cannot exceed maximum depth of " + IntToString(maxDepth)));
        }
      }
    }
  }

  /**
   * Re-parenting a main category under its own child: `validate_depth`
   * lets it through, and the resulting table has a cycle, so no rank fits it.
   */
  method ValidateDepthAdmitsCycle() returns (r: Outcome)
    ensures r == Pass
    ensures forall rank :: !Ranked(ReparentedUnderChild(), rank)
  {
    var t := map[1 := Category(1, "Root", None), 2 := Category(2, "Child", Some(1))];
    var rank := map[1 := 0, 2 := 1];
    assert Parent(t, 2) == Some(1);
    assert PathOf(t, rank, 2) == PathOf(t, rank, 1) + [t[2]];
    r := ValidateDepth(t, Category(1, "Root", Some(2)), 3, rank);
    ReparentedUnranked();
  }

  /** The table of `ValidateDepthAdmitsCycle` after the update was saved. */
  function ReparentedUnderChild(): (t: Table)
    ensures t.Keys == {1, 2} && t[1].parentId == Some(2) && t[2].parentId == Some(1)
  {
    map[1 := Category(1, "Root", Some(2)), 2 := Category(2, "Child", Some(1))]
  }

  lemma ReparentedUnranked()
    ensures forall rank :: !Ranked(ReparentedUnderChild(), rank)
  {
  }

  /**
   * `validate_depth` with the missing check added: it also refuses a parent
   * that is the category itself or lies below it.
   */
  method ValidateParent(t: Table, c: Category, maxDepth: int, ghost rank: map<int, nat>) returns (r: Outcome)
    requires Ranked(t, rank)
    ensures r.Fail? <==>
      || (c.parentId.Some? && c.parentId.value != 0 && c.parentId.value in t
          && |PathOf(t, rank, c.parentId.value)| - 1 >= maxDepth - 1)
      || (c.parentId.Some? && c.parentId.value in t && Under(t, rank, c.parentId.value, c.id))
    ensures r == Pass && c.id in t ==> Ranked(t[c.id := c], Reranked(t, rank, c))
  {
    r := ValidateDepth(t, c, maxDepth, rank);
    if r == Pass && c.parentId.Some? && c.parentId.value in t {
      var cyclic := IsUnder(t, c.parentId.value, c.id, rank);
      if cyclic {
        r := Fail(ValueError("Category cannot be its own ancestor"));
      }
    }
    if r == Pass && c.id in t {
      RerankedRanks(t, rank, c);
    }
  }

  /** Walks up from `d` looking for `a`. */
  method IsUnder(t: Table, d: int, a: int, ghost rank: map<int, nat>) returns (b: bool)
    requires Ranked(t, rank) && d in t
    ensures b == Under(t, rank, d, a)
  {
    var current := d;
    while current != a && Parent(t, current).Some?
      invariant current in t
      invariant Under(t, rank, d, a) == Under(t, rank, current, a)
      decreases rank[current]
    {
      current := Parent(t, current).value;
    }
    b := current == a;
  }

  /**
   * A rank for the table after `c` replaced its row: the subtree of `c`
   * moves to just above the new parent's rank, everything else stays.
   */
  ghost function Reranked(t: Table, rank: map<int, nat>, c: Category): (r: map<int, nat>)
    requires Ranked(t, rank) && c.id in t
    ensures r.Keys == t.Keys
  {
    var base := if c.parentId.Some? && c.parentId.value in t then RankOf(t, rank, c.parentId.value) + 1 else 0;
    map k | k in t :: Shifted(t, rank, c.id, base, k)
  }

  ghost function RankOf(t: Table, rank: map<int, nat>, k: int): (r: nat)
    requires Ranked(t, rank) && k in t
    ensures k in rank && r == rank[k]
  {
    rank[k]
  }

  ghost function Shifted(t: Table, rank: map<int, nat>, a: int, base: nat, k: int): (r: nat)
    requires Ranked(t, rank) && a in t && k in t
    ensures Under(t, rank, k, a) ==> r + rank[a] == rank[k] + base
    ensures !Under(t, rank, k, a) ==> r == rank[k]
  {
    if Under(t, rank, k, a) then
      UnderRank(t, rank, k, a);
      rank[k] - rank[a] + base
    else rank[k]
  }

  /**
   * Replacing the row of `c` by one whose parent is not below `c` keeps the
   * table free of cycles.
   */
  lemma RerankedRanks(t: Table, rank: map<int, nat>, c: Category)
    requires Ranked(t, rank) && c.id in t
    requires c.parentId.Some? && c.parentId.value in t ==> !Under(t, rank, c.parentId.value, c.id)
    ensures Ranked(t[c.id := c], Reranked(t, rank, c))
  {
    var u, r2 := t[c.id := c], Reranked(t, rank, c);
    forall k | k in u && Parent(u, k).Some?
      ensures Parent(u, k).value in r2 && r2[Parent(u, k).value] < r2[k]
    {
      var q := Parent(u, k).value;
      if k != c.id {
        assert Parent(t, k) == Some(q);
        assert Under(t, rank, k, c.id) <==> Under(t, rank, q, c.id);
      }
    }
  }

  /** `d` is `a` or lies below it. */
  ghost predicate Under(t: Table, rank: map<int, nat>, d: int, a: int)
    requires Ranked(t, rank) && d in t
    decreases rank[d]
  {
    d == a || (Parent(t, d).Some? && Under(t, rank, Parent(t, d).value, a))
  }

  lemma {:induction false} UnderRank(t: Table, rank: map<int, nat>, d: int, a: int)
    requires Ranked(t, rank) && d in t && a in t
    requires Under(t, rank, d, a)
    ensures rank[a] <= rank[d]
    decreases rank[d]
  {
    if d != a {
      UnderRank(t, rank, Parent(t, d).value, a);
    }
  }

  /** The categories whose `parent` is `x`: the `children` backref. */
  function Children(t: Table, x: int): (r: set<int>)
    requires x in t
    ensures forall c :: c in r <==> c in t && Parent(t, c) == Some(x)
  {
    set c | c in t && t[c].parentId == Some(x)
  }

  /**
   * The worklist of `get_all_products`: collects `id` and every category
   * below it.
   */
  method SubtreeIds(t: Table, id: int, ghost rank: map<int, nat>) returns (ids: set<int>)
    requires Ranked(t, rank) && id in t
    ensures forall d :: d in ids <==> d in t && Under(t, rank, d, id)
  {
    ids := {id};
    var todo := Children(t, id);
    while todo != {}
      invariant Worklist(t, rank, id, ids, todo)
      decreases |t.Keys - ids|
    {
      NonEmpty(todo);
      var x :| x in todo;
      WorklistStep(t, rank, id, ids, todo, x);
      assert t.Keys - (ids + {x}) < t.Keys - ids;
      ids := ids + {x};
      todo := (todo - {x}) + Children(t, x);
    }
    assert ids + todo == ids;
    forall d | d in t && Under(t, rank, d, id) ensures d in ids {
      Covered(t, rank, id, ids, d);
    }
  }

  /**
   * The state of the worklist walk: `ids` holds categories already taken,
   * `todo` those waiting, both below `id`; everything below `id` not yet
   * reached hangs under something not yet taken.
   */
  ghost predicate Worklist(t: Table, rank: map<int, nat>, id: int, ids: set<int>, todo: set<int>)
    requires Ranked(t, rank)
  {
    && ids <= t.Keys && todo <= t.Keys && ids !! todo && id in ids
    && (forall d :: d in ids || d in todo ==> Under(t, rank, d, id))
    && (forall c :: c in ids ==> c == id || (Parent(t, c).Some? && Parent(t, c).value in ids))
    && (forall c :: c in todo ==> Parent(t, c).Some? && Parent(t, c).value in ids)
    && Closed(t, rank, id, ids + todo, ids)
  }

  lemma WorklistStep(t: Table, rank: map<int, nat>, id: int, ids: set<int>, todo: set<int>, x: int)
    requires Ranked(t, rank) && id in t
    requires Worklist(t, rank, id, ids, todo) && x in todo
    ensures Worklist(t, rank, id, ids + {x}, (todo - {x}) + Children(t, x))
  {
    var kids := Children(t, x);
    forall c | c in kids ensures c !in ids && c != x {
      if c in ids {
        assert c == id;
        UnderRank(t, rank, x, id);
      }
    }
    var ids', todo' := ids + {x}, (todo - {x}) + kids;
    forall d | d in t && Under(t, rank, d, id) && d !in ids' + todo'
      ensures d != id && Parent(t, d).Some? && Parent(t, d).value !in ids'
    {
      assert d !in ids + todo;
    }
  }

  /**
   * Every category below `id` that is not in `reached` has a parent below
   * `id` that is not in `done` either.
   */
  ghost predicate Closed(t: Table, rank: map<int, nat>, id: int, reached: set<int>, done: set<int>)
    requires Ranked(t, rank)
  {
    forall d :: d in t && Under(t, rank, d, id) && d !in reached ==>
      d != id && Parent(t, d).Some? && Parent(t, d).value !in done
  }

  lemma {:induction false} Covered(t: Table, rank: map<int, nat>, id: int, ids: set<int>, d: int)
    requires Ranked(t, rank) && id in ids && d in t && Under(t, rank, d, id)
    requires Closed(t, rank, id, ids, ids)
    ensures d in ids
    decreases rank[d]
  {
    if d !in ids {
      Covered(t, rank, id, ids, Parent(t, d).value);
    }
  }

  /** The products whose category is in `ids`, in catalogue order. */
  function InCategories(products: seq<Models.Product>, ids: set<int>): (r: seq<Models.Product>)
    ensures forall p :: p in r <==> p in products && p.categoryId in ids
    ensures |r| <= |products|
  {
    if products == [] then []
    else
      var init := InCategories(products[..|products| - 1], ids);
      var last := products[|products| - 1];
      assert products == products[..|products| - 1] + [last];
      if last.categoryId in ids then init + [last] else init
  }

  /**
   * `get_all_products`: the products of the category alone, or of the
   * category and every category below it.
   */
  method GetAllProducts(t: Table, id: int, products: seq<Models.Product>, includeSubcategories: bool,
                        ghost rank: map<int, nat>) returns (r: seq<Models.Product>)
    requires Ranked(t, rank) && id in t
    ensures !includeSubcategories ==> r == InCategories(products, {id})
    ensures forall p :: p in r <==>
      && p in products
      && (if includeSubcategories then p.categoryId in t && Under(t, rank, p.categoryId, id)
          else p.categoryId == id)
  {
    if !includeSubcategories {
      return InCategories(products, {id});
    }
    var ids := SubtreeIds(t, id, rank);
    r := InCategories(products, ids);
  }
}
