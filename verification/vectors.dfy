/**
 * Finite real vectors and the inequality of Cauchy and Schwarz, which bounds
 * the cosine similarity of the neighbour-based filter. Sums are
 * `Common.SumReals`. Every step with products of unknowns is kept in a small
 * lemma over plain reals, and facts about products are carried from entry to
 * entry by a recursive predicate rather than a quantifier, which keeps the
 * solver's non-linear reasoning local.
 */
module Vectors {
  import opened Common

  /** Pointwise products. */
  function Times(u: seq<real>, v: seq<real>): (r: seq<real>)
    requires |u| == |v|
    ensures |r| == |u|
    ensures forall i :: 0 <= i < |r| ==> r[i] == u[i] * v[i]
  {
    seq(|u|, i requires 0 <= i < |u| => u[i] * v[i])
  }

  /** Σ u[i]·v[i] */
  function Dot(u: seq<real>, v: seq<real>): real
    requires |u| == |v|
  {
    SumReals(Times(u, v))
  }

  /** A sum of non-negative terms is non-negative. */
  lemma {:induction false} SumNonNegative(s: seq<real>)
    requires forall i :: 0 <= i < |s| ==> s[i] >= 0.0
    ensures SumReals(s) >= 0.0
  {
    if s != [] {
      SumNonNegative(s[..|s| - 1]);
    }
  }

  /** The last term of a sum. */
  lemma SumLast(s: seq<real>, n: nat)
    requires n + 1 == |s|
    ensures SumReals(s) == SumReals(s[..n]) + s[n]
  {
  }

  /** Entry-wise, uu and vv are non-negative and uv² = uu·vv; stated from the back, one entry per layer. */
  ghost predicate Products(uu: seq<real>, vv: seq<real>, uv: seq<real>)
    decreases |uv|
  {
    |uu| == |vv| == |uv| &&
    (uv == [] ||
     var n := |uv| - 1;
     Products(uu[..n], vv[..n], uv[..n]) &&
     uu[n] >= 0.0 && vv[n] >= 0.0 && uv[n] * uv[n] == uu[n] * vv[n])
  }

  lemma {:induction false} ProductsPointwise(uu: seq<real>, vv: seq<real>, uv: seq<real>)
    requires |uu| == |vv| == |uv|
    requires forall i :: 0 <= i < |uv| ==> uu[i] >= 0.0 && vv[i] >= 0.0 && uv[i] * uv[i] == uu[i] * vv[i]
    ensures Products(uu, vv, uv)
  {
    if uv != [] {
      var n := |uv| - 1;
      forall i | 0 <= i < n
        ensures uu[..n][i] >= 0.0 && vv[..n][i] >= 0.0 && uv[..n][i] * uv[..n][i] == uu[..n][i] * vv[..n][i]
      {
        assert uu[..n][i] == uu[i] && vv[..n][i] == vv[i] && uv[..n][i] == uv[i];
      }
      ProductsPointwise(uu[..n], vv[..n], uv[..n]);
    }
  }

  /** Cauchy–Schwarz on the entry-wise products, by induction from the back. */
  lemma {:induction false} ProductsSum(uu: seq<real>, vv: seq<real>, uv: seq<real>)
    requires Products(uu, vv, uv)
    ensures SumReals(uu) >= 0.0 && SumReals(vv) >= 0.0
    ensures SumReals(uv) * SumReals(uv) <= SumReals(uu) * SumReals(vv)
    decreases |uv|
  {
    if uv != [] {
      var n := |uv| - 1;
      ProductsSum(uu[..n], vv[..n], uv[..n]);
      SumLast(uu, n);
      SumLast(vv, n);
      SumLast(uv, n);
      Step(SumReals(uu[..n]), SumReals(vv[..n]), SumReals(uv[..n]), uu[n], vv[n], uv[n],
           SumReals(uu), SumReals(vv), SumReals(uv));
    }
  }

  lemma CauchySchwarz(u: seq<real>, v: seq<real>)
    requires |u| == |v|
    ensures Dot(u, v) * Dot(u, v) <= Dot(u, u) * Dot(v, v)
  {
    var uu, vv, uv := Times(u, u), Times(v, v), Times(u, v);
    forall i | 0 <= i < |u| ensures uu[i] >= 0.0 && vv[i] >= 0.0 && uv[i] * uv[i] == uu[i] * vv[i] {
      ElementProducts(u[i], v[i], uu[i], vv[i], uv[i]);
    }
    ProductsPointwise(uu, vv, uv);
    ProductsSum(uu, vv, uv);
  }

  /** A dot product of non-negative vectors is non-negative. */
  lemma DotNonNegative(u: seq<real>, v: seq<real>)
    requires |u| == |v|
    requires forall i :: 0 <= i < |u| ==> u[i] >= 0.0 && v[i] >= 0.0
    ensures Dot(u, v) >= 0.0
  {
    var uv := Times(u, v);
    forall i | 0 <= i < |u| ensures uv[i] >= 0.0 {
      MulNonNegative(u[i], v[i], uv[i]);
    }
    SumNonNegative(Times(u, v));
  }

  /** A sum of non-negative terms with a non-zero one is positive. */
  lemma {:induction false} SumPositive(s: seq<real>, k: int)
    requires forall i :: 0 <= i < |s| ==> s[i] >= 0.0
    requires 0 <= k < |s| && s[k] != 0.0
    ensures SumReals(s) > 0.0
  {
    var n := |s| - 1;
    if k < n {
      assert s[..n][k] == s[k];
      SumPositive(s[..n], k);
    } else {
      SumNonNegative(s[..n]);
    }
  }

  /** A vector's dot product with itself is non-negative, and positive once an entry is non-zero. */
  lemma DotSelf(u: seq<real>)
    ensures Dot(u, u) >= 0.0
    ensures (exists i :: 0 <= i < |u| && u[i] != 0.0) ==> Dot(u, u) > 0.0
  {
    var uu := Times(u, u);
    forall i | 0 <= i < |u| ensures uu[i] >= 0.0 {
      SquareNonNegative(u[i], uu[i]);
    }
    SumNonNegative(uu);
    if exists i :: 0 <= i < |u| && u[i] != 0.0 {
      var i :| 0 <= i < |u| && u[i] != 0.0;
      SquareNonZero(u[i], uu[i]);
      SumPositive(uu, i);
    }
  }

  /** Adding the next term of a prefix sum. */
  lemma SumPrefix(s: seq<real>, i: nat)
    requires i < |s|
    ensures SumReals(s[..i + 1]) == SumReals(s[..i]) + s[i]
  {
    assert s[..i + 1][..i] == s[..i];
  }

  /** The dot product does not depend on the order of its arguments. */
  lemma DotSymmetric(u: seq<real>, v: seq<real>)
    requires |u| == |v|
    ensures Dot(u, v) == Dot(v, u)
  {
    assert Times(u, v) == Times(v, u);
  }

  // Algebra on plain reals.

  lemma SquareNonNegative(t: real, tt: real)
    requires tt == t * t
    ensures tt >= 0.0
  {
  }

  lemma ElementProducts(a: real, b: real, x: real, y: real, z: real)
    requires x == a * a && y == b * b && z == a * b
    ensures x >= 0.0 && y >= 0.0 && z * z == x * y
  {
  }

  lemma Step(A: real, B: real, C: real, x: real, y: real, z: real, A2: real, B2: real, C2: real)
    requires A >= 0.0 && B >= 0.0 && x >= 0.0 && y >= 0.0
    requires C * C <= A * B && z * z == x * y
    requires A2 == A + x && B2 == B + y && C2 == C + z
    ensures C2 * C2 <= A2 * B2
  {
    CrossTerm(A, B, C, x, y, z);
  }

  lemma CrossTerm(A: real, B: real, C: real, x: real, y: real, z: real)
    requires A >= 0.0 && B >= 0.0 && x >= 0.0 && y >= 0.0
    requires C * C <= A * B && z * z == x * y
    ensures 2.0 * (C * z) <= A * y + x * B
  {
    var s, t := A * y, x * B;
    MulNonNegative(A, y, s);
    MulNonNegative(x, B, t);
    MulNonNegative(x, y, z * z);
    MulLe(C * C, A * B, z * z);
    AmGm(s, t);
    SquareLe(2.0 * (C * z), s + t);
  }

  lemma MulNonNegative(x: real, y: real, p: real)
    requires x >= 0.0 && y >= 0.0 && p == x * y
    ensures p >= 0.0
  {
  }

  lemma MulLe(a: real, b: real, k: real)
    requires a <= b && k >= 0.0
    ensures a * k <= b * k
  {
  }

  /** 4st ≤ (s + t)², the inequality of arithmetic and geometric means. */
  lemma AmGm(s: real, t: real)
    ensures 4.0 * (s * t) <= (s + t) * (s + t)
  {
    SquareNonNegative(s - t, (s - t) * (s - t));
  }

  /** p² ≤ q² with q ≥ 0 gives p ≤ q. */
  lemma SquareLe(p: real, q: real)
    requires q >= 0.0 && p * p <= q * q
    ensures p <= q
  {
    if p > q {
      MulPositive(p - q, p + q);
    }
  }

  lemma MulPositive(x: real, y: real)
    requires x > 0.0 && y > 0.0
    ensures x * y > 0.0
  {
  }

  // The solver does not reliably conclude `t * t > 0.0`; squares are shown non-zero instead.

  lemma ProductNonZero(x: real, y: real, p: real)
    requires x != 0.0 && y != 0.0 && p == x * y
    ensures p != 0.0
  {
  }

  lemma SquareNonZero(t: real, tt: real)
    requires t * t == tt
    requires t != 0.0
    ensures tt != 0.0
  {
    ProductNonZero(t, t, tt);
  }

  lemma ProductPositive(x: real, y: real)
    requires x >= 0.0 && y >= 0.0 && x * y != 0.0
    ensures x * y > 0.0
  {
  }

  lemma ProductOfSquares(aa: real, bb: real, sa: real, sb: real)
    requires sa * sa == aa && sb * sb == bb
    ensures aa * bb == (sa * sb) * (sa * sb)
  {
  }

  /** Two non-negative roots with a non-zero product: the product is positive and squares to aa·bb. */
  lemma SqrtProduct(aa: real, bb: real, sa: real, sb: real)
    requires sa >= 0.0 && sb >= 0.0 && sa * sa == aa && sb * sb == bb
    requires sa * sb != 0.0
    ensures sa * sb > 0.0
    ensures aa * bb == (sa * sb) * (sa * sb)
  {
    ProductPositive(sa, sb);
    ProductOfSquares(aa, bb, sa, sb);
  }

  /** A ratio d / den of a non-negative d and a positive den with d² ≤ den² is at most 1. */
  lemma RatioAtMostOne(d: real, den: real)
    requires d >= 0.0 && den > 0.0
    requires d * d <= den * den
    ensures 0.0 <= d / den <= 1.0
  {
    if d > den {
      assert d * d - den * den == (d - den) * (d + den);
      MulPositive(d - den, d + den);
    }
    assert d / den * den == d;
  }
}
