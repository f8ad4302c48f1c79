/**
 * Shared vocabulary of the recommendation engine model: optional values,
 * the Python exceptions the core can raise, list prefixes, duplicate-freedom,
 * and the two pieces of library mathematics (ln and sqrt) that the core
 * uses. The mathematics is not axiomatised: every member that needs it takes
 * the function as a parameter and requires the property it relies on.
 */
module Common {

  datatype Option<T> = None | Some(value: T)

  /** The exceptions of the core that the model keeps. */
  datatype Error =
    | ValueError(message: string)
    | KeyError(key: string)
    | ZeroDivisionError
    | IndexError
    | TypeError

  datatype Result<T> = Ok(value: T) | Err(error: Error)

  /** A count of things that were seen at least once. */
  type Pos = n: int | n >= 1 witness 1

  /** `m.get(k, 0.0)` on a map of floats, or a `defaultdict(float)` read. */
  function GetReal<K>(m: map<K, real>, k: K): real {
    if k in m then m[k] else 0.0
  }

  /** The outcome of a call that returns nothing or raises. */
  datatype Outcome = Pass | Fail(error: Error)

  /** Python's `str(n)` on an integer, in decimal. */
  function IntToString(n: int): (r: string)
    ensures |r| >= 1
  {
    if n < 0 then "-" + NatToString(-n) else NatToString(n)
  }

  function NatToString(n: nat): (r: string)
    ensures |r| >= 1
    ensures forall i :: 0 <= i < |r| ==> '0' <= r[i] <= '9'
  {
    if n < 10 then [Digit(n)] else NatToString(n / 10) + [Digit(n % 10)]
  }

  function Digit(d: nat): (c: char)
    requires d < 10
    ensures '0' <= c <= '9'
  {
    ['0', '1', '2', '3', '4', '5', '6', '7', '8', '9'][d]
  }

  /** Python's `s[:n]` for a non-negative `n`. */
  function Take<T>(s: seq<T>, n: nat): (r: seq<T>)
    ensures |r| == if n < |s| then n else |s|
    ensures r <= s
  {
    if n < |s| then s[..n] else s
  }

  /** Taking from a longer list: nothing changes once the prefix is full, and a short prefix takes the extension whole. */
  lemma TakeGrow<T>(s: seq<T>, t: seq<T>, n: nat)
    ensures |s| >= n ==> Take(s + t, n) == Take(s, n)
    ensures |s| + |t| <= n ==> Take(s + t, n) == s + t
    ensures |Take(s, n)| < n ==> Take(s, n) == s
  {
    if |s| >= n {
      assert (s + t)[..n] == s[..n];
    }
  }

  function Min(a: int, b: int): int {
    if a < b then a else b
  }

  /** Python's `max(a, b)` on floats. */
  function MaxReal(a: real, b: real): real {
    if a < b then b else a
  }

  /** Python's `int(x)` on a float: truncation toward zero. */
  function Trunc(x: real): int {
    if x >= 0.0 then x.Floor else -((-x).Floor)
  }

  /** Seconds in a day: times are whole seconds since the epoch. */
  const Day := 86400

  /** `(now - date).days` on times in seconds: whole days, rounded down. */
  function DaysOld(now: int, date: int): int {
    (now - date) / Day
  }

  predicate Distinct<T(==)>(s: seq<T>) {
    forall i, j :: 0 <= i < j < |s| ==> s[i] != s[j]
  }

  /** Appending an element that is not there yet keeps a sequence duplicate-free. */
  lemma DistinctSnoc<T>(s: seq<T>, x: T)
    requires Distinct(s)
    ensures Distinct(s + (if x in s then [] else [x]))
  {
  }

  /** Dropping the last element keeps a sequence duplicate-free, and the last element is not among the rest. */
  lemma DistinctInit<T>(s: seq<T>)
    requires Distinct(s) && s != []
    ensures Distinct(s[..|s| - 1]) && s[|s| - 1] !in s[..|s| - 1]
  {
  }

  /** The distinct elements of `s`, in order of first occurrence. */
  function Dedup<T(==, !new)>(s: seq<T>): (r: seq<T>)
    ensures forall x :: x in r <==> x in s
    ensures Distinct(r)
  {
    if s == [] then []
    else
      var init := s[..|s| - 1];
      var x := s[|s| - 1];
      DistinctSnoc(Dedup(init), x);
      Dedup(init) + (if x in Dedup(init) then [] else [x])
  }

  /** Python's `sep.join(parts)`. */
  function Join(parts: seq<string>, sep: string): string {
    if parts == [] then ""
    else if |parts| == 1 then parts[0]
    else Join(parts[..|parts| - 1], sep) + sep + parts[|parts| - 1]
  }

  /** Sum of a sequence of reals, accumulated left to right. */
  function SumReals(s: seq<real>): real {
    if s == [] then 0.0 else SumReals(s[..|s| - 1]) + s[|s| - 1]
  }

  /** Sum of a sequence of integers, accumulated left to right. */
  function SumInts(s: seq<int>): int {
    if s == [] then 0 else SumInts(s[..|s| - 1]) + s[|s| - 1]
  }

  /**
   * `log1p(n)` stands for the natural logarithm of 1 + n on counts. The
   * model uses only that ln(1) = 0 and that ln is strictly increasing.
   */
  ghost predicate IsLog1p(log1p: nat -> real) {
    && log1p(0) == 0.0
    && forall m: nat, n: nat :: m < n ==> log1p(m) < log1p(n)
  }

  /** `sqrt` stands for the non-negative square root on non-negative reals. */
  ghost predicate IsSqrt(sqrt: real -> real) {
    forall x: real :: 0.0 <= x ==> 0.0 <= sqrt(x) && sqrt(x) * sqrt(x) == x
  }

  lemma Log1pPositive(log1p: nat -> real, n: nat)
    requires IsLog1p(log1p)
    ensures n == 0 ==> log1p(n) == 0.0
    ensures n > 0 ==> log1p(n) > 0.0
  {
    if n > 0 {
      assert log1p(0) < log1p(n);
    }
  }

  /** Sets built from a sequence. */
  function Elems<T>(s: seq<T>): set<T> {
    set x | x in s
  }

  lemma DistinctCardinality<T>(s: seq<T>)
    requires Distinct(s)
    ensures |Elems(s)| == |s|
  {
    if s != [] {
      var t := s[..|s| - 1];
      assert Distinct(t);
      DistinctCardinality(t);
      assert Elems(s) == Elems(t) + {s[|s| - 1]};
      assert s[|s| - 1] !in Elems(t);
    }
  }

  /** A sequence has at most as many distinct elements as positions, and as many only without duplicates. */
  lemma {:induction false} ElemsCardinality<T>(s: seq<T>)
    ensures |Elems(s)| <= |s|
    ensures |Elems(s)| == |s| ==> Distinct(s)
  {
    if s != [] {
      var t := s[..|s| - 1];
      var x := s[|s| - 1];
      ElemsCardinality(t);
      assert s == t + [x];
      assert Elems(s) == Elems(t) + {x};
      if x in t {
        assert Elems(s) == Elems(t);
      } else {
        assert x !in Elems(t);
      }
    }
  }

  /** A non-empty set of integers has an element: the witness `:|` needs. */
  lemma NonEmpty(s: set<int>)
    requires s != {}
    ensures exists x :: x in s
  {
    if forall x :: x !in s {
      assert false;
    }
  }

  lemma SubsetCardinality<T>(a: set<T>, b: set<T>)
    requires a <= b
    ensures |a| <= |b|
  {
    assert b == a + (b - a);
  }
  lemma SubsetSameSize<T>(a: set<T>, b: set<T>)
    requires a <= b && |a| == |b|
    ensures a == b
  {
    assert b == a + (b - a);
    assert a * (b - a) == {};
  }

}
