/**
 * Python's `list.sort(key=lambda x: x[0], reverse=True)` on (score, item)
 * pairs, the ranking step every recommender of the engine ends with.
 * Python's sort is stable, also with reverse=True: pairs with equal scores
 * keep their input order. The model is an insertion sort with that property.
 */
module Ranking {
  import opened Common

  datatype Scored<T> = Scored(score: real, item: T)

  predicate NonIncreasing<T>(s: seq<Scored<T>>) {
    forall i, j :: 0 <= i < j < |s| ==> s[i].score >= s[j].score
  }

  /** `[p for _, p in s]` */
  function Items<T>(s: seq<Scored<T>>): (r: seq<T>)
    ensures |r| == |s|
    ensures forall i :: 0 <= i < |s| ==> r[i] == s[i].item
  {
    if s == [] then [] else Items(s[..|s| - 1]) + [s[|s| - 1].item]
  }

  /** Inserts x before the first element whose score is not above x's. */
  function Insert<T>(x: Scored<T>, s: seq<Scored<T>>): (r: seq<Scored<T>>)
    ensures multiset(r) == multiset(s) + multiset{x}
    ensures |r| == |s| + 1
    ensures forall i :: 0 <= i < |r| ==> r[i] in s || r[i] == x
  {
    if s == [] || x.score >= s[0].score then [x] + s
    else
      assert s == [s[0]] + s[1..];
      [s[0]] + Insert(x, s[1..])
  }

  lemma {:induction false} InsertBounded<T>(x: Scored<T>, s: seq<Scored<T>>, b: real)
    requires x.score <= b
    requires forall i :: 0 <= i < |s| ==> s[i].score <= b
    ensures forall i :: 0 <= i < |Insert(x, s)| ==> Insert(x, s)[i].score <= b
  {
    if s != [] && x.score < s[0].score {
      InsertBounded(x, s[1..], b);
    }
  }

  lemma {:induction false} InsertNonIncreasing<T>(x: Scored<T>, s: seq<Scored<T>>)
    requires NonIncreasing(s)
    ensures NonIncreasing(Insert(x, s))
  {
    if s != [] && x.score < s[0].score {
      InsertNonIncreasing(x, s[1..]);
      InsertBounded(x, s[1..], s[0].score);
      ConsNonIncreasing(s[0], Insert(x, s[1..]));
    }
  }

  lemma ConsNonIncreasing<T>(h: Scored<T>, s: seq<Scored<T>>)
    requires NonIncreasing(s)
    requires forall i :: 0 <= i < |s| ==> s[i].score <= h.score
    ensures NonIncreasing([h] + s)
  {
    var r := [h] + s;
    forall i, j | 0 <= i < j < |r|
      ensures r[i].score >= r[j].score
    {
      assert r[j] == s[j - 1];
      if i > 0 {
        assert r[i] == s[i - 1];
      }
    }
  }

  /** The stable descending sort. */
  function SortDesc<T>(s: seq<Scored<T>>): (r: seq<Scored<T>>)
    ensures NonIncreasing(r)
    ensures multiset(r) == multiset(s)
    ensures |r| == |s|
  {
    if s == [] then []
    else
      assert s == [s[0]] + s[1..];
      InsertNonIncreasing(s[0], SortDesc(s[1..]));
      Insert(s[0], SortDesc(s[1..]))
  }

  /**
   * When every key is the same, the stable sort changes nothing: the output
   * is the input order.
   */
  lemma {:induction false} SortDescConstantKey<T>(s: seq<Scored<T>>, k: real)
    requires forall i :: 0 <= i < |s| ==> s[i].score == k
    ensures SortDesc(s) == s
  {
    if s != [] {
      SortDescConstantKey(s[1..], k);
      assert SortDesc(s[1..]) == s[1..];
    }
  }

  /** The pairs whose score is `k`, in their order in `s`. */
  function WithScore<T>(s: seq<Scored<T>>, k: real): (r: seq<Scored<T>>)
    ensures |r| <= |s|
  {
    if s == [] then []
    else (if s[0].score == k then [s[0]] else []) + WithScore(s[1..], k)
  }

  /** `WithScore` keeps exactly the pairs scoring `k`. */
  lemma {:induction false} WithScoreMembers<T>(s: seq<Scored<T>>, k: real)
    ensures forall i :: 0 <= i < |WithScore(s, k)| ==> WithScore(s, k)[i] in s && WithScore(s, k)[i].score == k
    ensures forall i :: 0 <= i < |s| && s[i].score == k ==> s[i] in WithScore(s, k)
  {
    if s != [] {
      WithScoreMembers(s[1..], k);
      assert forall i :: 0 < i < |s| ==> s[i] == s[1..][i - 1];
    }
  }

  /**
   * Inserting x adds it at the front of its own score's pairs (everything
   * before it scores higher) and leaves every other score's pairs alone.
   */
  lemma {:induction false} InsertWithScore<T>(x: Scored<T>, s: seq<Scored<T>>, k: real)
    ensures WithScore(Insert(x, s), k) == (if x.score == k then [x] else []) + WithScore(s, k)
  {
    if s == [] || x.score >= s[0].score {
      assert ([x] + s)[1..] == s;
    } else {
      var rest := Insert(x, s[1..]);
      InsertWithScore(x, s[1..], k);
      assert ([s[0]] + rest)[1..] == rest;
      if x.score == k {
        assert s[0].score != k;
        assert WithScore([s[0]] + rest, k) == WithScore(rest, k);
      } else if s[0].score == k {
        assert WithScore([s[0]] + rest, k) == [s[0]] + WithScore(s[1..], k);
      } else {
        assert WithScore([s[0]] + rest, k) == WithScore(s[1..], k);
      }
    }
  }

  /**
   * Stability: for every score, the pairs with that score come out of the
   * sort in exactly the order they went in.
   */
  lemma {:induction false} SortDescStable<T>(s: seq<Scored<T>>, k: real)
    ensures WithScore(SortDesc(s), k) == WithScore(s, k)
  {
    if s != [] {
      SortDescStable(s[1..], k);
      InsertWithScore(s[0], SortDesc(s[1..]), k);
    }
  }

  lemma SortDescElements<T>(s: seq<Scored<T>>, x: Scored<T>)
    ensures x in SortDesc(s) <==> x in s
  {
    assert x in SortDesc(s) <==> x in multiset(SortDesc(s));
    assert x in s <==> x in multiset(s);
  }

  /**
   * The first n pairs after the descending sort: at most n pairs of the
   * input, in non-increasing order, and all of them when they fit.
   */
  lemma TakeSorted<T>(s: seq<Scored<T>>, n: nat)
    ensures var r := Take(SortDesc(s), n);
      |r| <= n && NonIncreasing(r) && (forall x :: x in r ==> x in s)
    ensures |s| <= n ==> forall x :: x in s ==> x in Take(SortDesc(s), n)
  {
    var sorted := SortDesc(s);
    var r := Take(sorted, n);
    assert r == sorted[..|r|];
    forall x | x in r ensures x in s {
      SortDescElements(s, x);
    }
    if |s| <= n {
      assert r == sorted;
      forall x | x in s ensures x in r {
        SortDescElements(s, x);
      }
    }
  }

  /** `[p for _, p in s_sorted[:limit]]` after the descending sort. */
  function TopItems<T>(s: seq<Scored<T>>, limit: nat): (r: seq<T>)
    ensures |r| <= limit && |r| <= |s|
  {
    Items(Take(SortDesc(s), limit))
  }

  /** The top items are items of the input, and all of them when they fit. */
  lemma TopItemsMembers<T>(s: seq<Scored<T>>, limit: nat)
    ensures forall x :: x in TopItems(s, limit) ==> x in Items(s)
    ensures |s| <= limit ==> forall x :: x in Items(s) ==> x in TopItems(s, limit)
  {
    var sorted := SortDesc(s);
    var top := Take(sorted, limit);
    var r := TopItems(s, limit);
    TakeSorted(s, limit);
    forall x | x in r ensures x in Items(s) {
      var i :| 0 <= i < |r| && r[i] == x;
      assert top[i] in top;
      var k :| 0 <= k < |s| && s[k] == top[i];
      assert Items(s)[k] == x;
    }
    if |s| <= limit {
      forall x | x in Items(s) ensures x in r {
        var k :| 0 <= k < |s| && Items(s)[k] == x;
        assert s[k] in s;
        var i :| 0 <= i < |top| && top[i] == s[k];
        assert r[i] == x;
      }
    }
  }

  /**
   * When every pair's score is `f` of its item, the top items are items of
   * the input, in non-increasing `f` order, and all of them when they fit.
   */
  lemma TopItemsRanked<T>(s: seq<Scored<T>>, limit: nat, f: T -> real)
    requires forall i :: 0 <= i < |s| ==> s[i].score == f(s[i].item)
    ensures forall x :: x in TopItems(s, limit) ==> x in Items(s)
    ensures forall i, j :: 0 <= i < j < |TopItems(s, limit)| ==>
      f(TopItems(s, limit)[i]) >= f(TopItems(s, limit)[j])
    ensures |s| <= limit ==> forall x :: x in Items(s) ==> x in TopItems(s, limit)
  {
    var top := Take(SortDesc(s), limit);
    var r := TopItems(s, limit);
    TopItemsMembers(s, limit);
    TakeSorted(s, limit);
    forall i | 0 <= i < |top| ensures top[i].score == f(r[i]) {
      assert top[i] in top;
      var k :| 0 <= k < |s| && s[k] == top[i];
    }
  }

  /** Two pairs in increasing order come out swapped. */
  lemma SortPair<T>(x: Scored<T>, y: Scored<T>)
    requires x.score < y.score
    ensures SortDesc([x, y]) == [y, x]
    ensures TopItems([x, y], 2) == [y.item, x.item]
  {
    assert [x, y][1..] == [y];
    assert [y][1..] == [];
    assert SortDesc([y]) == [y];
    assert Insert(x, [y]) == [y] + Insert(x, []);
  }

  lemma ItemsAppend<T>(a: seq<Scored<T>>, b: seq<Scored<T>>)
    ensures Items(a + b) == Items(a) + Items(b)
  {
    assert |Items(a + b)| == |Items(a) + Items(b)|;
    forall i | 0 <= i < |a + b| ensures Items(a + b)[i] == (Items(a) + Items(b))[i] {
      if i >= |a| {
        assert (a + b)[i] == b[i - |a|];
      }
    }
  }

  /** Sequences of scored items that are permutations of each other have permuted items. */
  lemma {:induction false} ItemsMultiset<T>(s: seq<Scored<T>>, t: seq<Scored<T>>)
    requires multiset(s) == multiset(t)
    ensures multiset(Items(s)) == multiset(Items(t))
  {
    if s != [] {
      var x := s[|s| - 1];
      assert x in multiset(s);
      var k :| 0 <= k < |t| && t[k] == x;
      var t' := t[..k] + t[k + 1..];
      assert t == t[..k] + [x] + t[k + 1..];
      assert s == s[..|s| - 1] + [x];
      assert multiset(t) == multiset(t[..k]) + multiset{x} + multiset(t[k + 1..]);
      assert multiset(s) == multiset(s[..|s| - 1]) + multiset{x};
      assert multiset(t') == multiset(t[..k]) + multiset(t[k + 1..]);
      forall y ensures multiset(s[..|s| - 1])[y] == multiset(t')[y] {
        assert (multiset(s[..|s| - 1]) + multiset{x})[y] == (multiset(t') + multiset{x})[y];
      }
      ItemsMultiset(s[..|s| - 1], t');
      ItemsAppend(s[..|s| - 1], [x]);
      ItemsAppend(t[..k] + [x], t[k + 1..]);
      ItemsAppend(t[..k], [x]);
      ItemsAppend(t[..k], t[k + 1..]);
    } else {
      assert t == [];
    }
  }
}
