/** Real vectors and their linear combinations: the vocabulary in which the Gram-Schmidt
    test program is specified. */
module Vectors {

  type Vec = seq<real>

  /** The sum of the first `k` products, in the order the loops of the program add them. */
  function DotTo(a: Vec, b: Vec, k: nat): real
    requires k <= |a| && k <= |b|
  {
    if k == 0 then 0.0 else DotTo(a, b, k - 1) + a[k - 1] * b[k - 1]
  }

  function Dot(a: Vec, b: Vec): real
    requires |a| == |b|
  {
    DotTo(a, b, |a|)
  }

  function Zero(n: nat): Vec { seq(n, k => 0.0) }

  function Scale(x: real, a: Vec): Vec {
    seq(|a|, k requires 0 <= k < |a| => a[k] * x)
  }

  /** a + x*b */
  function Axpy(a: Vec, x: real, b: Vec): Vec
    requires |a| == |b|
  {
    seq(|a|, k requires 0 <= k < |a| => a[k] + x * b[k])
  }

  predicate Dims(v: seq<Vec>, n: nat) {
    forall j :: 0 <= j < |v| ==> |v[j]| == n
  }

  /** c[0]*v[0] + ... + c[k-1]*v[k-1] */
  function Comb(v: seq<Vec>, c: Vec, k: nat, n: nat): (r: Vec)
    requires k <= |v| && k <= |c| && Dims(v, n)
    ensures |r| == n
  {
    if k == 0 then Zero(n) else Axpy(Comb(v, c, k - 1, n), c[k - 1], v[k - 1])
  }

  /** The only combination of the vectors that vanishes is the one with zero coefficients. */
  ghost predicate Independent(v: seq<Vec>, n: nat)
    requires Dims(v, n)
  {
    forall c: Vec :: |c| == |v| && Comb(v, c, |v|, n) == Zero(n) ==> c == Zero(|v|)
  }

  /** Vectors `0..k` are unit vectors and pairwise orthogonal. */
  ghost predicate Orthonormal(v: seq<Vec>, k: nat, n: nat)
    requires k <= |v| && Dims(v, n)
  {
    forall a, b :: 0 <= a < k && 0 <= b < k ==> Dot(v[a], v[b]) == if a == b then 1.0 else 0.0
  }

  // ---------------------------------------------------------------- dot products

  lemma {:induction false} DotToComm(a: Vec, b: Vec, k: nat)
    requires k <= |a| && k <= |b|
    ensures DotTo(a, b, k) == DotTo(b, a, k)
  {
    if k > 0 { DotToComm(a, b, k - 1); }
  }

  lemma DotComm(a: Vec, b: Vec)
    requires |a| == |b|
    ensures Dot(a, b) == Dot(b, a)
  {
    DotToComm(a, b, |a|);
  }

  lemma {:induction false} DotToScale(d: Vec, x: real, a: Vec, k: nat)
    requires k <= |a| && k <= |d|
    ensures DotTo(d, Scale(x, a), k) == DotTo(d, a, k) * x
  {
    if k > 0 {
      DotToScale(d, x, a, k - 1);
      var t, p, q := DotTo(d, a, k - 1), d[k - 1], a[k - 1];
      assert p * (q * x) == (p * q) * x;
      assert (t + p * q) * x == t * x + (p * q) * x;
    }
  }

  lemma DotScale(d: Vec, x: real, a: Vec)
    requires |d| == |a|
    ensures Dot(d, Scale(x, a)) == Dot(d, a) * x
  {
    DotToScale(d, x, a, |d|);
  }

  lemma {:induction false} DotToAxpy(d: Vec, a: Vec, x: real, b: Vec, k: nat)
    requires |a| == |b| && k <= |a| && k <= |d|
    ensures DotTo(d, Axpy(a, x, b), k) == DotTo(d, a, k) + x * DotTo(d, b, k)
  {
    if k > 0 {
      DotToAxpy(d, a, x, b, k - 1);
      var t, u, p, q, r := DotTo(d, a, k - 1), DotTo(d, b, k - 1), d[k - 1], a[k - 1], b[k - 1];
      assert p * (q + x * r) == p * q + x * (p * r);
      assert x * (u + p * r) == x * u + x * (p * r);
    }
  }

  lemma DotAxpy(d: Vec, a: Vec, x: real, b: Vec)
    requires |a| == |b| == |d|
    ensures Dot(d, Axpy(a, x, b)) == Dot(d, a) + x * Dot(d, b)
  {
    DotToAxpy(d, a, x, b, |d|);
  }

  lemma {:induction false} DotToZero(d: Vec, n: nat, k: nat)
    requires k <= |d| && k <= n
    ensures DotTo(d, Zero(n), k) == 0.0
  {
    if k > 0 { DotToZero(d, n, k - 1); }
  }

  predicate SameSign(x: real, y: real) {
    (x > 0.0 <==> y > 0.0) && (x < 0.0 <==> y < 0.0)
  }

  lemma SameSignProduct(x: real, y: real)
    requires SameSign(x, y)
    ensures x * y >= 0.0
    ensures x * y == 0.0 ==> x == 0.0
  {
    if x > 0.0 {
      assert x * y > 0.0;
    } else if x < 0.0 {
      assert (-x) * (-y) > 0.0;
    }
  }

  /** Stated for two vectors of equal signs, of which a vector and itself are one case. */
  lemma {:induction false} DotToSameSign(a: Vec, b: Vec, k: nat)
    requires k <= |a| && k <= |b|
    requires forall j :: 0 <= j < k ==> SameSign(a[j], b[j])
    ensures DotTo(a, b, k) >= 0.0
    ensures DotTo(a, b, k) == 0.0 ==> forall j :: 0 <= j < k ==> a[j] == 0.0
  {
    if k > 0 {
      DotToSameSign(a, b, k - 1);
      SameSignProduct(a[k - 1], b[k - 1]);
    }
  }

  /** A squared length is never negative, and zero only for the zero vector. */
  lemma NormIsDefinite(a: Vec)
    ensures Dot(a, a) >= 0.0
    ensures Dot(a, a) == 0.0 <==> a == Zero(|a|)
  {
    DotToSameSign(a, a, |a|);
    if a == Zero(|a|) { DotToZero(a, |a|, |a|); }
  }

  /** A remainder of which a direction is all that is left. */
  lemma AbsorbPivot(rest: Vec, s: real, q: Vec)
    requires |rest| == |q|
    ensures Axpy(rest, 1.0, Scale(s, q)) == Axpy(rest, s, q)
  {
    forall k | 0 <= k < |q| ensures Axpy(rest, 1.0, Scale(s, q))[k] == Axpy(rest, s, q)[k] {
      assert 1.0 * (q[k] * s) == s * q[k];
    }
  }

  /** What is taken out of one summand is what is added to the other. */
  lemma MoveAcross(rest: Vec, d: real, q: Vec, v: Vec)
    requires |rest| == |q| == |v|
    ensures Axpy(Axpy(rest, d, q), 1.0, Axpy(v, -d, q)) == Axpy(rest, 1.0, v)
  {
    forall k | 0 <= k < |q|
      ensures Axpy(Axpy(rest, d, q), 1.0, Axpy(v, -d, q))[k] == Axpy(rest, 1.0, v)[k]
    {
      assert (-d) * q[k] == -(d * q[k]);
    }
  }

  // ---------------------------------------------------------------- combinations

  /** Combining only looks at the first `k` vectors and coefficients. */
  lemma {:induction false} CombLocal(v: seq<Vec>, w: seq<Vec>, c: Vec, d: Vec, k: nat, n: nat)
    requires k <= |v| && k <= |w| && k <= |c| && k <= |d| && Dims(v, n) && Dims(w, n)
    requires forall j :: 0 <= j < k ==> v[j] == w[j] && c[j] == d[j]
    ensures Comb(v, c, k, n) == Comb(w, d, k, n)
  {
    if k > 0 { CombLocal(v, w, c, d, k - 1, n); }
  }

  lemma ScaleEntry(p: real, x: real, c: real, q: real)
    ensures p * x + (c * x) * q == (p + c * q) * x
  {
    assert (c * x) * q == (c * q) * x;
  }

  lemma ScaleTerm(p: Vec, x: real, c: real, y: real, q: Vec)
    requires |p| == |q| && y == c * x
    ensures Axpy(Scale(x, p), y, q) == Scale(x, Axpy(p, c, q))
  {
    forall r | 0 <= r < |q| ensures Axpy(Scale(x, p), y, q)[r] == Scale(x, Axpy(p, c, q))[r] {
      ScaleEntry(p[r], x, c, q[r]);
    }
  }

  lemma {:induction false} CombScale(v: seq<Vec>, x: real, c: Vec, k: nat, n: nat)
    requires k <= |v| && k <= |c| && Dims(v, n)
    ensures Comb(v, Scale(x, c), k, n) == Scale(x, Comb(v, c, k, n))
  {
    if k == 0 {
      assert Scale(x, Zero(n)) == Zero(n);
    } else {
      CombScale(v, x, c, k - 1, n);
      ScaleTerm(Comb(v, c, k - 1, n), x, c[k - 1], Scale(x, c)[k - 1], v[k - 1]);
    }
  }

  lemma AxpyEntry(p: real, x: real, s: real, c: real, d: real, q: real)
    ensures (p + x * s) + (c + x * d) * q == (p + c * q) + x * (s + d * q)
  {
    assert (c + x * d) * q == c * q + x * (d * q);
    assert x * (s + d * q) == x * s + x * (d * q);
  }

  lemma AxpyTerm(p: Vec, x: real, s: Vec, c: real, d: real, y: real, q: Vec)
    requires |p| == |s| == |q| && y == c + x * d
    ensures Axpy(Axpy(p, x, s), y, q) == Axpy(Axpy(p, c, q), x, Axpy(s, d, q))
  {
    forall r | 0 <= r < |q|
      ensures Axpy(Axpy(p, x, s), y, q)[r] == Axpy(Axpy(p, c, q), x, Axpy(s, d, q))[r]
    {
      AxpyEntry(p[r], x, s[r], c, d, q[r]);
    }
  }

  lemma {:induction false} CombAxpy(v: seq<Vec>, c: Vec, x: real, d: Vec, k: nat, n: nat)
    requires |c| == |d| && k <= |v| && k <= |c| && Dims(v, n)
    ensures Comb(v, Axpy(c, x, d), k, n) == Axpy(Comb(v, c, k, n), x, Comb(v, d, k, n))
  {
    if k == 0 {
      assert Axpy(Zero(n), x, Zero(n)) == Zero(n);
    } else {
      CombAxpy(v, c, x, d, k - 1, n);
      AxpyTerm(Comb(v, c, k - 1, n), x, Comb(v, d, k - 1, n), c[k - 1], d[k - 1],
               Axpy(c, x, d)[k - 1], v[k - 1]);
    }
  }

  /** The coefficients that pick vector `j`. */
  function Unit(m: nat, j: nat): Vec {
    seq(m, l => if l == j then 1.0 else 0.0)
  }

  lemma {:induction false} CombUnit(v: seq<Vec>, j: nat, k: nat, n: nat)
    requires k <= |v| && Dims(v, n) && j < |v|
    ensures Comb(v, Unit(|v|, j), k, n) == if j < k then v[j] else Zero(n)
  {
    if k > 0 { CombUnit(v, j, k - 1, n); }
  }

  /** The scalar c[0]*(d . v[0]) + ... + c[k-1]*(d . v[k-1]). */
  function CombDots(d: Vec, v: seq<Vec>, c: Vec, k: nat): real
    requires k <= |v| && k <= |c| && Dims(v, |d|)
  {
    if k == 0 then 0.0 else CombDots(d, v, c, k - 1) + c[k - 1] * Dot(d, v[k - 1])
  }

  lemma {:induction false} DotComb(d: Vec, v: seq<Vec>, c: Vec, k: nat)
    requires k <= |v| && k <= |c| && Dims(v, |d|)
    ensures Dot(d, Comb(v, c, k, |d|)) == CombDots(d, v, c, k)
  {
    if k == 0 {
      DotToZero(d, |d|, |d|);
    } else {
      DotComb(d, v, c, k - 1);
      DotAxpy(d, Comb(v, c, k - 1, |d|), c[k - 1], v[k - 1]);
    }
  }

  /** A vector meets the unit vector `k` in its entry `k`: all entries weigh the same. */
  lemma {:induction false} DotUnit(a: Vec, j: nat, k: nat)
    requires k <= |a| && j < |a|
    ensures DotTo(Unit(|a|, j), a, k) == if j < k then a[j] else 0.0
  {
    if k > 0 { DotUnit(a, j, k - 1); }
  }
}
