/** The float helpers of the decision path, over the reals. `sqrt` is a parameter `f` constrained by `IsSqrt`;
    no square-root axiom is introduced. Vectors are sequences and every function takes the number `n` of
    live coordinates, as the source does. Products go through `Mul`, so that the structural proofs can hide
    multiplication and leave it to the small algebraic lemmas. */
module Fmath {
  type Vec = seq<real>

  ghost predicate IsSqrt(f: real -> real) {
    forall x :: 0.0 <= x ==> 0.0 <= f(x) && Mul(f(x), f(x)) == x
  }

  function Mul(x: real, y: real): real { x * y }

  function Min(a: real, b: real): real { if a < b then a else b }

  function Max(a: real, b: real): real { if a > b then a else b }

  function Clamp(x: real, lo: real, hi: real): real { Max(lo, Min(x, hi)) }

  /** Squared length of the first `n` coordinates of `a - b`, accumulated left to right. */
  function SqDist(a: Vec, b: Vec, n: nat): real
    requires n <= |a| && n <= |b|
  {
    if n == 0 then 0.0 else SqDist(a, b, n - 1) + Mul(a[n - 1] - b[n - 1], a[n - 1] - b[n - 1])
  }

  function SqNorm(v: Vec, n: nat): real
    requires n <= |v|
  {
    if n == 0 then 0.0 else SqNorm(v, n - 1) + Mul(v[n - 1], v[n - 1])
  }

  function Dist(f: real -> real, a: Vec, b: Vec, n: nat): real
    requires n <= |a| && n <= |b|
  {
    f(SqDist(a, b, n))
  }

  function Norm(f: real -> real, v: Vec, n: nat): real
    requires n <= |v|
  {
    f(SqNorm(v, n))
  }

  function ZeroVec(n: nat): (r: Vec)
    ensures |r| == n && forall i :: 0 <= i < n ==> r[i] == 0.0
  {
    seq(n, _ => 0.0)
  }

  /** The point a fraction `s` of the way from `q` to `a`. */
  function Toward(q: Vec, a: Vec, s: real): (r: Vec)
    requires |q| == |a|
    ensures |r| == |a|
    ensures forall c :: 0 <= c < |a| ==> r[c] == q[c] + Mul(a[c] - q[c], s)
  {
    seq(|a|, c requires 0 <= c < |a| => q[c] + Mul(a[c] - q[c], s))
  }

  method DistLoop(f: real -> real, a: Vec, b: Vec, n: nat) returns (r: real)
    requires n <= |a| && n <= |b|
    ensures r == Dist(f, a, b, n)
  {
    var s := 0.0;
    var i := 0;
    while i < n
      invariant i <= n
      invariant s == SqDist(a, b, i)
    {
      var d := a[i] - b[i];
      s := s + Mul(d, d);
      i := i + 1;
    }
    r := f(s);
  }

  method NormLoop(f: real -> real, v: Vec, n: nat) returns (r: real)
    requires n <= |v|
    ensures r == Norm(f, v, n)
  {
    var s := 0.0;
    var i := 0;
    while i < n
      invariant i <= n
      invariant s == SqNorm(v, i)
    {
      s := s + Mul(v[i], v[i]);
      i := i + 1;
    }
    r := f(s);
  }

  // ---- products -------------------------------------------------------------------------------------------

  lemma MulPositive(x: real, y: real)
    requires 0.0 < x && 0.0 < y
    ensures 0.0 < Mul(x, y)
  {}

  lemma MulNonNegative(x: real, y: real)
    requires 0.0 <= x && 0.0 <= y
    ensures 0.0 <= Mul(x, y)
  {}

  lemma SqNonNegative(x: real)
    ensures 0.0 <= Mul(x, x)
  {}

  lemma NegSq(x: real)
    ensures Mul(x, x) == Mul(-x, -x)
  {}

  lemma SqPositive(x: real)
    requires x != 0.0
    ensures 0.0 < Mul(x, x)
  {
    hide Mul;
    NegSq(x);
    if 0.0 < x { MulPositive(x, x); } else { MulPositive(-x, -x); }
  }

  lemma SqLess(x: real, y: real)
    requires 0.0 <= x < y
    ensures Mul(x, x) < Mul(y, y)
  {
    MulPositive(y - x, y + x);
    assert (y - x) * (y + x) == y * y - x * x;
  }

  /** `y` bounds `x` when it does so squared. */
  lemma SqBound(x: real, y: real)
    requires 0.0 <= y && Mul(x, x) <= Mul(y, y)
    ensures x <= y
  {
    hide Mul;
    if y < x { SqLess(y, x); }
  }

  // ---- square roots ---------------------------------------------------------------------------------------

  lemma SqrtSpec(f: real -> real, x: real)
    requires IsSqrt(f) && 0.0 <= x
    ensures 0.0 <= f(x) && Mul(f(x), f(x)) == x
  {
    hide Mul;
  }

  /** A non-negative number is the root of its square. */
  lemma SqrtUnique(f: real -> real, x: real, y: real)
    requires IsSqrt(f) && 0.0 <= y && x == Mul(y, y)
    ensures f(x) == y
  {
    hide Mul;
    SqNonNegative(y);
    SqrtSpec(f, x);
    if f(x) < y {
      SqLess(f(x), y);
    } else if y < f(x) {
      SqLess(y, f(x));
    }
  }

  // ---- distances ------------------------------------------------------------------------------------------

  lemma {:induction false} SqDistNonNegative(a: Vec, b: Vec, n: nat)
    requires n <= |a| && n <= |b|
    ensures 0.0 <= SqDist(a, b, n)
  {
    hide Mul;
    if n > 0 {
      SqDistNonNegative(a, b, n - 1);
      SqNonNegative(a[n - 1] - b[n - 1]);
    }
  }

  lemma DistNonNegative(f: real -> real, a: Vec, b: Vec, n: nat)
    requires IsSqrt(f) && n <= |a| && n <= |b|
    ensures 0.0 <= Dist(f, a, b, n)
  {
    hide Mul;
    SqDistNonNegative(a, b, n);
    SqrtSpec(f, SqDist(a, b, n));
  }

  /** Distinct points are a positive distance apart. */
  lemma {:induction false} SqDistPositive(a: Vec, b: Vec, n: nat, c: nat)
    requires n <= |a| && n <= |b| && c < n && a[c] != b[c]
    ensures 0.0 < SqDist(a, b, n)
  {
    hide Mul;
    if c < n - 1 {
      SqDistPositive(a, b, n - 1, c);
      SqNonNegative(a[n - 1] - b[n - 1]);
    } else {
      SqDistNonNegative(a, b, n - 1);
      SqPositive(a[n - 1] - b[n - 1]);
    }
  }

  lemma {:induction false} SqDistSelf(a: Vec, n: nat)
    requires n <= |a|
    ensures SqDist(a, a, n) == 0.0
  {
    if n > 0 { SqDistSelf(a, n - 1); }
  }

  lemma DistSelf(f: real -> real, a: Vec, n: nat)
    requires IsSqrt(f) && n <= |a|
    ensures Dist(f, a, a, n) == 0.0
  {
    SqDistSelf(a, n);
    SqrtUnique(f, 0.0, 0.0);
  }

  lemma ScaledSum(s: real, x: real, y: real, d: real, e: real)
    requires x == Mul(Mul(s, s), y) && e == Mul(d, s)
    ensures x + Mul(e, e) == Mul(Mul(s, s), y + Mul(d, d))
  {
    assert (d * s) * (d * s) == s * s * (d * d);
  }

  lemma {:induction false} SqDistScaled(t: Vec, q: Vec, a: Vec, s: real, n: nat)
    requires n <= |t| && n <= |q| && n <= |a|
    requires forall c :: 0 <= c < n ==> t[c] == q[c] + Mul(a[c] - q[c], s)
    ensures SqDist(t, q, n) == Mul(Mul(s, s), SqDist(a, q, n))
  {
    if n == 0 {
    } else {
      hide Mul;
      SqDistScaled(t, q, a, s, n - 1);
      ScaledSum(s, SqDist(t, q, n - 1), SqDist(a, q, n - 1), a[n - 1] - q[n - 1], t[n - 1] - q[n - 1]);
    }
  }

  lemma SqProduct(s: real, d: real)
    ensures Mul(Mul(s, s), Mul(d, d)) == Mul(Mul(s, d), Mul(s, d))
  {}

  /** Moving a fraction `s` of the way scales the distance by exactly `s`. */
  lemma DistToward(f: real -> real, q: Vec, a: Vec, s: real, n: nat)
    requires IsSqrt(f) && |q| == |a| && n <= |a| && 0.0 <= s
    ensures Dist(f, Toward(q, a, s), q, n) == Mul(s, Dist(f, a, q, n))
  {
    hide Mul;
    SqDistScaled(Toward(q, a, s), q, a, s, n);
    SqDistNonNegative(a, q, n);
    SqrtSpec(f, SqDist(a, q, n));
    var d := Dist(f, a, q, n);
    SqProduct(s, d);
    MulNonNegative(s, d);
    SqrtUnique(f, SqDist(Toward(q, a, s), q, n), Mul(s, d));
  }

  /** A step between two numbers of an interval, shortened, stays in the interval. */
  lemma BetweenStays(lo: real, hi: real, q: real, a: real, s: real)
    requires lo <= q <= hi && lo <= a <= hi && 0.0 <= s <= 1.0
    ensures lo <= q + Mul(a - q, s) <= hi
  {
    MulNonNegative(q - lo, 1.0 - s);
    MulNonNegative(a - lo, s);
    MulNonNegative(hi - q, 1.0 - s);
    MulNonNegative(hi - a, s);
    assert q + (a - q) * s - lo == (q - lo) * (1.0 - s) + (a - lo) * s;
    assert hi - (q + (a - q) * s) == (hi - q) * (1.0 - s) + (hi - a) * s;
  }

  // ---- the triangle inequality in n dimensions ------------------------------------------------------------

  function Dot(a: Vec, b: Vec, n: nat): real
    requires n <= |a| && n <= |b|
  {
    if n == 0 then 0.0 else Dot(a, b, n - 1) + Mul(a[n - 1], b[n - 1])
  }

  function Sub(a: Vec, b: Vec): (r: Vec)
    requires |a| == |b|
    ensures |r| == |a| && forall c :: 0 <= c < |a| ==> r[c] == a[c] - b[c]
  {
    seq(|a|, c requires 0 <= c < |a| => a[c] - b[c])
  }

  lemma {:induction false} SqNormNonNegative(v: Vec, n: nat)
    requires n <= |v|
    ensures 0.0 <= SqNorm(v, n)
  {
    hide Mul;
    if n > 0 {
      SqNormNonNegative(v, n - 1);
      SqNonNegative(v[n - 1]);
    }
  }

  /** One induction step of Cauchy-Schwarz: `P`, `Q` are the partial squared lengths, `D` the partial dot
      product and `x`, `y` the next coordinates. */
  lemma CauchyStep(P: real, Q: real, D: real, x: real, y: real)
    requires 0.0 <= P && 0.0 <= Q && Mul(D, D) <= Mul(P, Q)
    ensures Mul(D + Mul(x, y), D + Mul(x, y)) <= Mul(P + Mul(x, x), Q + Mul(y, y))
  {
    var u, w, m := P * (y * y), Q * (x * x), D * (x * y);
    SqNonNegative(y);
    SqNonNegative(x);
    MulNonNegative(P, y * y);
    MulNonNegative(Q, x * x);
    CrossTerms(P, Q, D, x, y);
    MixedBound(u, w, m);
    assert (D + x * y) * (D + x * y) == D * D + 2.0 * m + (x * y) * (x * y);
    assert (P + x * x) * (Q + y * y) == P * Q + u + w + (x * x) * (y * y);
    assert (x * x) * (y * y) == (x * y) * (x * y);
  }

  lemma CrossTerms(P: real, Q: real, D: real, x: real, y: real)
    requires Mul(D, D) <= Mul(P, Q)
    ensures Mul(D * (x * y), D * (x * y)) <= Mul(P * (y * y), Q * (x * x))
  {
    var t := (x * y) * (x * y);
    SqNonNegative(x * y);
    MulNonNegative(P * Q - D * D, t);
    assert (P * Q - D * D) * t == (P * (y * y)) * (Q * (x * x)) - (D * (x * y)) * (D * (x * y));
  }

  lemma MixedBound(u: real, w: real, m: real)
    requires 0.0 <= u && 0.0 <= w && Mul(m, m) <= Mul(u, w)
    ensures 2.0 * m <= u + w
  {
    SqNonNegative(u - w);
    assert (u + w) * (u + w) == (u - w) * (u - w) + 4.0 * (u * w);
    assert (2.0 * m) * (2.0 * m) == 4.0 * (m * m);
    SqBound(2.0 * m, u + w);
  }

  lemma {:induction false} CauchySchwarz(a: Vec, b: Vec, n: nat)
    requires n <= |a| && n <= |b|
    ensures Mul(Dot(a, b, n), Dot(a, b, n)) <= Mul(SqNorm(a, n), SqNorm(b, n))
  {
    if n > 0 {
      hide Mul;
      CauchySchwarz(a, b, n - 1);
      SqNormNonNegative(a, n - 1);
      SqNormNonNegative(b, n - 1);
      CauchyStep(SqNorm(a, n - 1), SqNorm(b, n - 1), Dot(a, b, n - 1), a[n - 1], b[n - 1]);
    }
  }

  lemma SqSum(x: real, y: real)
    ensures Mul(x + y, x + y) == Mul(x, x) + 2.0 * Mul(x, y) + Mul(y, y)
  {}

  /** `|a - c|^2 = |a - b|^2 + 2 (a - b).(b - c) + |b - c|^2`. */
  lemma {:induction false} SqDistExpand(a: Vec, b: Vec, c: Vec, n: nat)
    requires |a| == |b| == |c| && n <= |a|
    ensures SqDist(a, c, n) == SqDist(a, b, n) + 2.0 * Dot(Sub(a, b), Sub(b, c), n) + SqDist(b, c, n)
  {
    hide Mul;
    if n > 0 {
      SqDistExpand(a, b, c, n - 1);
      SqSum(a[n - 1] - b[n - 1], b[n - 1] - c[n - 1]);
      assert a[n - 1] - c[n - 1] == (a[n - 1] - b[n - 1]) + (b[n - 1] - c[n - 1]);
    }
  }

  lemma {:induction false} SqNormSub(a: Vec, b: Vec, n: nat)
    requires |a| == |b| && n <= |a|
    ensures SqNorm(Sub(a, b), n) == SqDist(a, b, n)
  {
    hide Mul;
    if n > 0 { SqNormSub(a, b, n - 1); }
  }

  lemma {:induction false} SqDistSymmetric(a: Vec, b: Vec, n: nat)
    requires n <= |a| && n <= |b|
    ensures SqDist(a, b, n) == SqDist(b, a, n)
  {
    hide Mul;
    if n > 0 {
      SqDistSymmetric(a, b, n - 1);
      NegSq(a[n - 1] - b[n - 1]);
      assert -(a[n - 1] - b[n - 1]) == b[n - 1] - a[n - 1];
    }
  }

  /** The triangle inequality for the Euclidean distance over `n` coordinates. */
  lemma Triangle(f: real -> real, a: Vec, b: Vec, c: Vec, n: nat)
    requires IsSqrt(f) && |a| == |b| == |c| && n <= |a|
    ensures Dist(f, a, c, n) <= Dist(f, a, b, n) + Dist(f, b, c, n)
  {
    hide Mul;
    var P, Q, R, D := SqDist(a, b, n), SqDist(b, c, n), SqDist(a, c, n), Dot(Sub(a, b), Sub(b, c), n);
    SqDistNonNegative(a, b, n);
    SqDistNonNegative(b, c, n);
    SqDistNonNegative(a, c, n);
    SqDistExpand(a, b, c, n);
    CauchySchwarz(Sub(a, b), Sub(b, c), n);
    SqNormSub(a, b, n);
    SqNormSub(b, c, n);
    SqrtSpec(f, P);
    SqrtSpec(f, Q);
    SqrtSpec(f, R);
    var x, y := f(P), f(Q);
    SqProduct(x, y);
    MulNonNegative(x, y);
    SqBound(D, Mul(x, y));
    SqSum(x, y);
    SqBound(f(R), x + y);
  }
}
