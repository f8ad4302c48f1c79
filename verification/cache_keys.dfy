/**
 * Cache-key generation of the recommendation cache
 * (`RecommendationCache._generate_cache_key`): the keyword arguments are
 * sorted, written as `type:k1=v1:k2=v2...`, and a key longer than 250
 * characters is replaced by `type:hash:<md5 hex digest>`. MD5 is a parameter.
 */
module CacheKeys {
  import opened Common

  /** One keyword argument, its value already rendered by `str()`. */
  datatype KwArg = KwArg(name: string, value: string)

  const MaxKeyLength: nat := 250

  // ---------------------------------------------------------------------
  // Python's `<` on str: lexicographic order on code points.

  predicate StrLess(a: string, b: string) {
    if a == [] then b != []
    else if b == [] then false
    else a[0] < b[0] || (a[0] == b[0] && StrLess(a[1..], b[1..]))
  }

  lemma {:induction false} StrLessIrreflexive(a: string)
    ensures !StrLess(a, a)
  {
    if a != [] {
      StrLessIrreflexive(a[1..]);
    }
  }

  lemma {:induction false} StrLessTransitive(a: string, b: string, c: string)
    requires StrLess(a, b) && StrLess(b, c)
    ensures StrLess(a, c)
  {
    if a != [] && b != [] && c != [] && a[0] == b[0] && b[0] == c[0] {
      StrLessTransitive(a[1..], b[1..], c[1..]);
    }
  }

  lemma {:induction false} StrLessTotal(a: string, b: string)
    requires a != b
    ensures StrLess(a, b) || StrLess(b, a)
  {
    if a != [] && b != [] && a[0] == b[0] {
      assert a == [a[0]] + a[1..] && b == [b[0]] + b[1..];
      StrLessTotal(a[1..], b[1..]);
    }
  }

  lemma StrLessAsymmetric(a: string, b: string)
    requires StrLess(a, b)
    ensures !StrLess(b, a)
  {
    if StrLess(b, a) {
      StrLessTransitive(a, b, a);
      StrLessIrreflexive(a);
    }
  }

  // ---------------------------------------------------------------------
  // sorted(kwargs.items())

  /** Keyword names of one call are distinct (Python forbids repeats). */
  predicate DistinctNames(kw: seq<KwArg>) {
    forall i, j :: 0 <= i < j < |kw| ==> kw[i].name != kw[j].name
  }

  predicate SortedByName(kw: seq<KwArg>) {
    forall i, j :: 0 <= i < j < |kw| ==> StrLess(kw[i].name, kw[j].name)
  }

  function InsertByName(x: KwArg, s: seq<KwArg>): (r: seq<KwArg>)
    ensures multiset(r) == multiset(s) + multiset{x}
    ensures |r| == |s| + 1
    ensures forall i :: 0 <= i < |r| ==> r[i] in s || r[i] == x
  {
    if s == [] || StrLess(x.name, s[0].name) then [x] + s
    else
      assert s == [s[0]] + s[1..];
      [s[0]] + InsertByName(x, s[1..])
  }

  lemma {:induction false} InsertByNameSorted(x: KwArg, s: seq<KwArg>)
    requires SortedByName(s)
    requires forall i :: 0 <= i < |s| ==> s[i].name != x.name
    ensures SortedByName(InsertByName(x, s))
  {
    var r := InsertByName(x, s);
    if s == [] || StrLess(x.name, s[0].name) {
      forall i, j | 0 <= i < j < |r|
        ensures StrLess(r[i].name, r[j].name)
      {
        if i == 0 && j > 1 {
          StrLessTransitive(x.name, s[0].name, s[j - 1].name);
        }
      }
    } else {
      StrLessTotal(x.name, s[0].name);
      var rest := InsertByName(x, s[1..]);
      InsertByNameSorted(x, s[1..]);
      assert r == [s[0]] + rest;
      forall i, j | 0 <= i < j < |r|
        ensures StrLess(r[i].name, r[j].name)
      {
        assert r[j] == rest[j - 1];
        if i > 0 {
          assert r[i] == rest[i - 1];
        } else {
          assert rest[j - 1] in s[1..] || rest[j - 1] == x;
        }
      }
    }
  }

  /** Python's `sorted(kwargs.items())` for distinct names. */
  function SortKwargs(kw: seq<KwArg>): (r: seq<KwArg>)
    ensures multiset(r) == multiset(kw)
    ensures |r| == |kw|
  {
    if kw == [] then []
    else
      assert kw == [kw[0]] + kw[1..];
      InsertByName(kw[0], SortKwargs(kw[1..]))
  }

  lemma {:induction false} SortKwargsSorted(kw: seq<KwArg>)
    requires DistinctNames(kw)
    ensures SortedByName(SortKwargs(kw))
  {
    if kw != [] {
      SortKwargsSorted(kw[1..]);
      var t := SortKwargs(kw[1..]);
      forall i | 0 <= i < |t|
        ensures t[i].name != kw[0].name
      {
        assert t[i] in multiset(kw[1..]);
        var j :| 0 <= j < |kw[1..]| && kw[1..][j] == t[i];
        assert kw[j + 1] == t[i];
      }
      InsertByNameSorted(kw[0], t);
    }
  }

  /** Two non-empty name-sorted sequences with the same elements start alike. */
  lemma SortedHeads(a: seq<KwArg>, b: seq<KwArg>)
    requires SortedByName(a) && SortedByName(b)
    requires multiset(a) == multiset(b) && a != [] && b != []
    ensures a[0] == b[0]
  {
    assert a[0] in multiset(b);
    var j :| 0 <= j < |b| && b[j] == a[0];
    assert b[0] in multiset(a);
    var i :| 0 <= i < |a| && a[i] == b[0];
    if j > 0 {
      assert StrLess(b[0].name, a[0].name);
      if i > 0 {
        assert StrLess(a[0].name, b[0].name);
        StrLessAsymmetric(a[0].name, b[0].name);
      } else {
        StrLessIrreflexive(a[0].name);
      }
    }
  }

  /** Removing equal heads leaves equal multisets. */
  lemma TailsAlike(a: seq<KwArg>, b: seq<KwArg>)
    requires multiset(a) == multiset(b) && a != [] && b != [] && a[0] == b[0]
    ensures multiset(a[1..]) == multiset(b[1..])
  {
    assert a == [a[0]] + a[1..] && b == [b[0]] + b[1..];
    assert multiset(a) == multiset{a[0]} + multiset(a[1..]);
    assert multiset(b) == multiset{b[0]} + multiset(b[1..]);
    forall x ensures multiset(a[1..])[x] == multiset(b[1..])[x] {
      assert multiset(a)[x] == multiset(b)[x];
    }
  }

  /** Two name-sorted sequences with the same elements are the same sequence. */
  lemma {:induction false} SortedUnique(a: seq<KwArg>, b: seq<KwArg>)
    requires SortedByName(a) && SortedByName(b)
    requires multiset(a) == multiset(b)
    ensures a == b
  {
    assert |b| == |a| by {
      assert |multiset(a)| == |a| && |multiset(b)| == |b|;
    }
    if a != [] {
      SortedHeads(a, b);
      TailsAlike(a, b);
      SortedUnique(a[1..], b[1..]);
      assert a == [a[0]] + a[1..] && b == [b[0]] + b[1..];
    }
  }

  // ---------------------------------------------------------------------
  // The key string.

  function Render(kw: seq<KwArg>): seq<string> {
    if kw == [] then []
    else Render(kw[..|kw| - 1]) + [kw[|kw| - 1].name + "=" + kw[|kw| - 1].value]
  }

  /** `f"{key_type}:" + ":".join(f"{k}={v}" for k, v in sorted_kwargs)` */
  function KeyData(keyType: string, kwargs: seq<KwArg>): string {
    keyType + ":" + Join(Render(SortKwargs(kwargs)), ":")
  }

  /** `_generate_cache_key`; `md5` gives the hex digest of a string. */
  function GenerateCacheKey(keyType: string, kwargs: seq<KwArg>, md5: string -> string): (r: string)
    ensures keyType + ":" <= r
    ensures |KeyData(keyType, kwargs)| <= MaxKeyLength ==> r == KeyData(keyType, kwargs)
    ensures |KeyData(keyType, kwargs)| > MaxKeyLength ==> r == keyType + ":hash:" + md5(KeyData(keyType, kwargs))
  {
    var data := KeyData(keyType, kwargs);
    if |data| > MaxKeyLength then keyType + ":hash:" + md5(data) else data
  }

  /**
   * The key does not depend on the order in which the keyword arguments
   * were passed.
   */
  lemma CacheKeyOrderIndependent(keyType: string, kw1: seq<KwArg>, kw2: seq<KwArg>, md5: string -> string)
    requires DistinctNames(kw1)
    requires multiset(kw1) == multiset(kw2)
    ensures GenerateCacheKey(keyType, kw1, md5) == GenerateCacheKey(keyType, kw2, md5)
  {
    assert DistinctNames(kw2) by {
      forall i, j | 0 <= i < j < |kw2|
        ensures kw2[i].name != kw2[j].name
      {
        assert kw2[i] in multiset(kw1) && kw2[j] in multiset(kw1);
        var i' :| 0 <= i' < |kw1| && kw1[i'] == kw2[i];
        var j' :| 0 <= j' < |kw1| && kw1[j'] == kw2[j];
        if i' == j' {
          MultiplicityOne(kw1, i');
          MultiplicityTwo(kw2, i, j);
          assert false;
        }
      }
    }
    SortKwargsSorted(kw1);
    SortKwargsSorted(kw2);
    SortedUnique(SortKwargs(kw1), SortKwargs(kw2));
  }

  lemma {:induction false} MultiplicityTwo<T>(s: seq<T>, i: nat, j: nat)
    requires i < j < |s|
    requires s[i] == s[j]
    ensures multiset(s)[s[i]] >= 2
  {
    assert s == s[..j] + [s[j]] + s[j + 1..];
    assert s[i] in s[..j];
    assert multiset(s[..j])[s[i]] >= 1;
  }

  lemma {:induction false} MultiplicityOne(kw: seq<KwArg>, i: nat)
    requires DistinctNames(kw)
    requires i < |kw|
    ensures multiset(kw)[kw[i]] == 1
  {
    var x := kw[i];
    assert kw == kw[..i] + [x] + kw[i + 1..];
    assert x !in kw[..i] by {
      forall k | 0 <= k < i ensures kw[k] != x { }
    }
    assert x !in kw[i + 1..] by {
      forall k | i < k < |kw| ensures kw[k] != x { }
    }
    assert multiset(kw[..i])[x] == 0;
    assert multiset(kw[i + 1..])[x] == 0;
  }

  // ---------------------------------------------------------------------
  // Substrings, as used by `invalidate(pattern)`.

  /** Python's `p in s` on strings. */
  predicate Contains(s: string, p: string) {
    p <= s || (s != [] && Contains(s[1..], p))
  }

  lemma {:induction false} ContainsInfix(a: string, p: string, b: string)
    ensures Contains(a + p + b, p)
  {
    if a == [] {
      assert a + p + b == p + b;
    } else {
      assert (a + p + b)[1..] == a[1..] + p + b;
      ContainsInfix(a[1..], p, b);
    }
  }

  lemma {:induction false} JoinContainsLast(parts: seq<string>, sep: string)
    requires parts != []
    ensures Contains(Join(parts, sep), parts[|parts| - 1])
  {
    var last := parts[|parts| - 1];
    if |parts| == 1 {
      ContainsInfix("", last, "");
      assert "" + last + "" == last;
    } else {
      ContainsInfix(Join(parts[..|parts| - 1], sep) + sep, last, "");
      assert Join(parts[..|parts| - 1], sep) + sep + last + "" == Join(parts, sep);
    }
  }

  lemma {:induction false} ContainsExtend(s: string, p: string, a: string, b: string)
    requires Contains(s, p)
    ensures Contains(a + s + b, p)
  {
    if a == [] {
      if p <= s {
        assert p <= s + b;
        assert a + s + b == s + b;
      } else {
        assert s[1..] + b == (s + b)[1..];
        ContainsExtend(s[1..], p, [], b);
        assert [] + s[1..] + b == s[1..] + b;
        assert a + s + b == s + b;
      }
    } else {
      ContainsExtend(s, p, a[1..], b);
      assert (a + s + b)[1..] == a[1..] + s + b;
    }
  }

  lemma {:induction false} JoinContainsPart(parts: seq<string>, sep: string, k: nat)
    requires k < |parts|
    ensures Contains(Join(parts, sep), parts[k])
  {
    if k == |parts| - 1 {
      JoinContainsLast(parts, sep);
    } else {
      JoinContainsPart(parts[..|parts| - 1], sep, k);
      ContainsExtend(Join(parts[..|parts| - 1], sep), parts[k], [], sep + parts[|parts| - 1]);
      assert [] + Join(parts[..|parts| - 1], sep) + (sep + parts[|parts| - 1]) == Join(parts, sep);
    }
  }

  lemma {:induction false} RenderHas(kw: seq<KwArg>, k: nat)
    requires k < |kw|
    ensures |Render(kw)| == |kw|
    ensures Render(kw)[k] == kw[k].name + "=" + kw[k].value
  {
    if k < |kw| - 1 {
      RenderHas(kw[..|kw| - 1], k);
    } else if |kw| > 1 {
      RenderHas(kw[..|kw| - 1], 0);
    }
  }

  /**
   * A key that is not hashed contains `name=value` for every keyword
   * argument, which is what `CacheManager` invalidates by (`user_id=5`).
   */
  lemma ShortKeyContainsEveryArgument(keyType: string, kwargs: seq<KwArg>, md5: string -> string, k: nat)
    requires k < |kwargs|
    requires |KeyData(keyType, kwargs)| <= MaxKeyLength
    ensures Contains(GenerateCacheKey(keyType, kwargs, md5), kwargs[k].name + "=" + kwargs[k].value)
  {
    var sorted := SortKwargs(kwargs);
    assert kwargs[k] in multiset(sorted);
    var j :| 0 <= j < |sorted| && sorted[j] == kwargs[k];
    RenderHas(sorted, j);
    JoinContainsPart(Render(sorted), ":", j);
    ContainsExtend(Join(Render(sorted), ":"), kwargs[k].name + "=" + kwargs[k].value, keyType + ":", "");
    assert keyType + ":" + Join(Render(sorted), ":") + "" == KeyData(keyType, kwargs);
  }

  predicate IsHexDigit(c: char) {
    ('0' <= c <= '9') || ('a' <= c <= 'f')
  }

  lemma {:induction false} NoCharNoContains(s: string, p: string, c: char)
    requires c in p
    requires forall i :: 0 <= i < |s| ==> s[i] != c
    ensures !Contains(s, p)
  {
    var i :| 0 <= i < |p| && p[i] == c;
    if |p| <= |s| {
      assert s[i] != p[i];
    }
    if s != [] {
      NoCharNoContains(s[1..], p, c);
    }
  }

  /**
   * Once a key is hashed, no `name=value` pattern can match it (when the
   * key type has no '=' and the digest is hex): invalidating a user or a
   * product misses every hashed key.
   */
  lemma HashedKeyEscapesInvalidation(keyType: string, kwargs: seq<KwArg>, md5: string -> string, pattern: string)
    requires |KeyData(keyType, kwargs)| > MaxKeyLength
    requires forall i :: 0 <= i < |keyType| ==> keyType[i] != '='
    requires forall i :: 0 <= i < |md5(KeyData(keyType, kwargs))| ==> IsHexDigit(md5(KeyData(keyType, kwargs))[i])
    requires '=' in pattern
    ensures !Contains(GenerateCacheKey(keyType, kwargs, md5), pattern)
  {
    var key := GenerateCacheKey(keyType, kwargs, md5);
    var digest := md5(KeyData(keyType, kwargs));
    assert key == keyType + ":hash:" + digest;
    forall i | 0 <= i < |key|
      ensures key[i] != '='
    {
      if i >= |keyType| + 6 {
        assert key[i] == digest[i - |keyType| - 6];
      }
    }
    NoCharNoContains(key, pattern, '=');
  }
}
