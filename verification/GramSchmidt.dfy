/** The modified Gram-Schmidt test program of tests/proc/up-gs.c over exact reals.

    A matrix is stored column first, as in the program: `m[i, k]` is row `k` of column `i`.
    The library functions `sqrt` and `sin` are parameters about which only what the
    argument needs is known. */
module GramSchmidt {
  import opened Vectors

  datatype Option<T> = None | Some(value: T)

  ghost predicate IsSqrt(sqrt: real -> real) {
    forall x: real :: x > 0.0 ==> sqrt(x) > 0.0 && sqrt(x) * sqrt(x) == x
  }

  ghost predicate IsSin(sin: real -> real) {
    forall x: real :: -1.0 <= sin(x) <= 1.0
  }

  /** `s` is the length of `v`, and not zero. */
  predicate IsNorm(s: real, v: Vec) {
    s > 0.0 && s * s == Dot(v, v)
  }

  /** The working columns, and for every column the coefficients recorded so far:
      projections on the earlier output columns, then the norm it was divided by. */
  datatype Progress = Progress(v: seq<Vec>, c: seq<Vec>)

  predicate Sized(p: Progress, n: nat) {
    |p.c| == |p.v| && Dims(p.v, n)
  }

  function SweptColumn(v: Vec, q: Vec, i: nat, j: nat): (r: Vec)
    requires |v| == |q|
    ensures |r| == |v|
  {
    if j < i then v else if j == i then q else Axpy(v, -Dot(q, v), q)
  }

  function SweptCoefficients(c: Vec, v: Vec, q: Vec, i: nat, j: nat, s: real): Vec
    requires |v| == |q|
  {
    if j < i then c else if j == i then c + [s] else c + [Dot(q, v)]
  }

  /** One pass of the outer loop: normalise column `i`, then take its direction out of all
      later columns. `s` is the square root of its squared length. */
  function Sweep(p: Progress, i: nat, s: real, n: nat): (r: Progress)
    requires Sized(p, n) && i < |p.v| && s != 0.0
    ensures Sized(r, n) && |r.v| == |p.v|
  {
    var q := Scale(1.0 / s, p.v[i]);
    Progress(
      seq(|p.v|, j requires 0 <= j < |p.v| => SweptColumn(p.v[j], q, i, j)),
      seq(|p.v|, j requires 0 <= j < |p.v| => SweptCoefficients(p.c[j], p.v[j], q, i, j, s)))
  }

  function Start(a: seq<Vec>): Progress {
    Progress(a, seq(|a|, j => []))
  }

  /** The number column `i` is divided by, when there is one. */
  ghost function NormOf(sqrt: real -> real, p: Progress, i: nat, n: nat): (s: real)
    requires IsSqrt(sqrt) && Sized(p, n) && i < |p.v| && Dot(p.v[i], p.v[i]) != 0.0
    ensures IsNorm(s, p.v[i])
  {
    NormIsDefinite(p.v[i]);
    sqrt(Dot(p.v[i], p.v[i]))
  }

  /** The progress after `i` passes, or None if some column had norm zero. */
  ghost function After(sqrt: real -> real, a: seq<Vec>, i: nat, n: nat): (r: Option<Progress>)
    requires IsSqrt(sqrt) && Dims(a, n) && i <= |a|
    ensures r.Some? ==> Sized(r.value, n) && |r.value.v| == |a|
  {
    if i == 0 then Some(Start(a))
    else
      match After(sqrt, a, i - 1, n)
      case None => None
      case Some(p) =>
        if Dot(p.v[i - 1], p.v[i - 1]) == 0.0 then None
        else Some(Sweep(p, i - 1, NormOf(sqrt, p, i - 1, n), n))
  }

  // ---------------------------------------------------------------- the loop invariant

  /** Finished columns are orthonormal, and unfinished ones are orthogonal to them. */
  ghost predicate Orthogonalised(p: Progress, i: nat, n: nat)
    requires Sized(p, n) && i <= |p.v|
  {
    && Orthonormal(p.v, i, n)
    && forall l, j :: 0 <= l < i <= j < |p.v| ==> Dot(p.v[l], p.v[j]) == 0.0
  }

  /** Original column `j` is the recorded combination of finished columns, plus what is
      left of it if it is unfinished. */
  ghost predicate FactoredAt(p: Progress, a: Vec, i: nat, j: nat, n: nat)
    requires Sized(p, n) && i <= |p.v| && j < |p.v|
  {
    && |p.c[j]| == (if j < i then j + 1 else i)
    && (j < i ==> p.c[j][j] > 0.0)
    && a == if j < i then Comb(p.v, p.c[j], j + 1, n)
            else Axpy(Comb(p.v, p.c[j], i, n), 1.0, p.v[j])
  }

  ghost predicate Factored(p: Progress, a: seq<Vec>, i: nat, n: nat)
    requires Sized(p, n) && |a| == |p.v| && i <= |a|
  {
    forall j :: 0 <= j < |a| ==> FactoredAt(p, a[j], i, j, n)
  }

  lemma UnitScalar(s: real, x: real, t: real)
    requires x * s == 1.0 && s * s == t
    ensures (t * x) * x == 1.0
  {
    assert t * x == s * (x * s);
    assert t * x == s;
  }

  lemma UnitLength(a: Vec, s: real)
    requires IsNorm(s, a)
    ensures var q := Scale(1.0 / s, a); Dot(q, q) == 1.0 && Scale(s, q) == a
  {
    var x := 1.0 / s;
    var q := Scale(x, a);
    assert x * s == 1.0;
    DotScale(q, x, a);
    DotComm(q, a);
    DotScale(a, x, a);
    UnitScalar(s, x, Dot(a, a));
    forall k | 0 <= k < |a| ensures Scale(s, q)[k] == a[k] {
      assert (a[k] * x) * s == a[k] * (x * s);
    }
  }

  lemma SweepOrthogonalises(p: Progress, i: nat, s: real, n: nat)
    requires Sized(p, n) && i < |p.v| && Orthogonalised(p, i, n)
    requires IsNorm(s, p.v[i])
    ensures Orthogonalised(Sweep(p, i, s, n), i + 1, n)
  {
    var r := Sweep(p, i, s, n);
    var q := r.v[i];
    UnitLength(p.v[i], s);
    forall l | 0 <= l < i ensures Dot(r.v[l], q) == 0.0 && Dot(q, r.v[l]) == 0.0 {
      DotScale(r.v[l], 1.0 / s, p.v[i]);
      DotComm(r.v[l], q);
    }
    forall j | i < j < |p.v| ensures Dot(q, r.v[j]) == 0.0 {
      DotAxpy(q, p.v[j], -Dot(q, p.v[j]), q);
    }
    forall l, j | 0 <= l < i < j < |p.v| ensures Dot(r.v[l], r.v[j]) == 0.0 {
      DotAxpy(r.v[l], p.v[j], -Dot(q, p.v[j]), q);
    }
  }

  /** Splitting column `i` into norm times direction. */
  lemma SweepFactorsPivot(p: Progress, a: Vec, i: nat, s: real, n: nat)
    requires Sized(p, n) && i < |p.v| && FactoredAt(p, a, i, i, n)
    requires IsNorm(s, p.v[i])
    ensures FactoredAt(Sweep(p, i, s, n), a, i + 1, i, n)
  {
    var r := Sweep(p, i, s, n);
    UnitLength(p.v[i], s);
    CombLocal(p.v, r.v, p.c[i], r.c[i], i, n);
    AbsorbPivot(Comb(p.v, p.c[i], i, n), s, r.v[i]);
  }

  /** Taking the direction of column `i` out of column `j`, and recording how much. */
  lemma SweepFactorsLater(p: Progress, a: Vec, i: nat, j: nat, s: real, n: nat)
    requires Sized(p, n) && i < j < |p.v| && FactoredAt(p, a, i, j, n)
    requires s != 0.0
    ensures FactoredAt(Sweep(p, i, s, n), a, i + 1, j, n)
  {
    var r := Sweep(p, i, s, n);
    CombLocal(p.v, r.v, p.c[j], r.c[j], i, n);
    MoveAcross(Comb(p.v, p.c[j], i, n), Dot(r.v[i], p.v[j]), r.v[i], p.v[j]);
  }

  lemma SweepKeepsEarlier(p: Progress, a: Vec, i: nat, j: nat, s: real, n: nat)
    requires Sized(p, n) && j < i < |p.v| && FactoredAt(p, a, i, j, n)
    requires s != 0.0
    ensures FactoredAt(Sweep(p, i, s, n), a, i + 1, j, n)
  {
    var r := Sweep(p, i, s, n);
    CombLocal(p.v, r.v, p.c[j], r.c[j], j + 1, n);
  }

  lemma SweepFactors(p: Progress, a: seq<Vec>, i: nat, s: real, n: nat)
    requires Sized(p, n) && |a| == |p.v| && i < |a| && Factored(p, a, i, n)
    requires IsNorm(s, p.v[i])
    ensures Factored(Sweep(p, i, s, n), a, i + 1, n)
  {
    forall j | 0 <= j < |a| ensures FactoredAt(Sweep(p, i, s, n), a[j], i + 1, j, n) {
      if j < i {
        SweepKeepsEarlier(p, a[j], i, j, s, n);
      } else if j == i {
        SweepFactorsPivot(p, a[j], i, s, n);
      } else {
        SweepFactorsLater(p, a[j], i, j, s, n);
      }
    }
  }

  lemma StartFactored(a: seq<Vec>, n: nat)
    requires Dims(a, n)
    ensures Factored(Start(a), a, 0, n)
  {
    forall j | 0 <= j < |a| ensures a[j] == Axpy(Zero(n), 1.0, a[j]) {
    }
  }

  /** The invariant of the outer loop. */
  ghost predicate Kept(p: Progress, a: seq<Vec>, i: nat, n: nat) {
    Sized(p, n) && |a| == |p.v| && i <= |a| && Orthogonalised(p, i, n) && Factored(p, a, i, n)
  }

  lemma SweepKeeps(p: Progress, a: seq<Vec>, i: nat, s: real, n: nat)
    requires Kept(p, a, i, n) && i < |a|
    requires IsNorm(s, p.v[i])
    ensures Kept(Sweep(p, i, s, n), a, i + 1, n)
  {
    SweepOrthogonalises(p, i, s, n);
    SweepFactors(p, a, i, s, n);
  }

  lemma StartKept(a: seq<Vec>, n: nat)
    requires Dims(a, n)
    ensures Kept(Start(a), a, 0, n)
  {
    StartFactored(a, n);
  }

  lemma AfterStep(sqrt: real -> real, a: seq<Vec>, i: nat, n: nat) returns (p: Progress)
    requires IsSqrt(sqrt) && Dims(a, n) && 0 < i <= |a| && After(sqrt, a, i, n).Some?
    ensures After(sqrt, a, i - 1, n) == Some(p) && Dot(p.v[i - 1], p.v[i - 1]) != 0.0
    ensures After(sqrt, a, i, n) == Some(Sweep(p, i - 1, NormOf(sqrt, p, i - 1, n), n))
  {
    p := After(sqrt, a, i - 1, n).value;
  }

  ghost predicate KeptAfter(sqrt: real -> real, a: seq<Vec>, i: nat, n: nat)
    requires IsSqrt(sqrt) && Dims(a, n) && i <= |a|
  {
    var r := After(sqrt, a, i, n);
    r.Some? ==> Kept(r.value, a, i, n)
  }

  lemma StepKeeps(sqrt: real -> real, a: seq<Vec>, i: nat, n: nat)
    requires IsSqrt(sqrt) && Dims(a, n) && 0 < i <= |a| && KeptAfter(sqrt, a, i - 1, n)
    ensures KeptAfter(sqrt, a, i, n)
  {
    if After(sqrt, a, i, n).Some? {
      var p := AfterStep(sqrt, a, i, n);
      SweepKeeps(p, a, i - 1, NormOf(sqrt, p, i - 1, n), n);
    }
  }

  /** So the invariant holds after every pass. */
  lemma {:induction false} AfterKeeps(sqrt: real -> real, a: seq<Vec>, i: nat, n: nat)
    requires IsSqrt(sqrt) && Dims(a, n) && i <= |a|
    ensures KeptAfter(sqrt, a, i, n)
  {
    if i == 0 {
      StartKept(a, n);
    } else {
      AfterKeeps(sqrt, a, i - 1, n);
      StepKeeps(sqrt, a, i, n);
    }
  }

  // ---------------------------------------------------------------- when norms vanish

  /** `v` is a combination of the original columns up to `j` that uses column `j`. */
  ghost predicate Spanned(v: Vec, a: seq<Vec>, l: Vec, j: nat, n: nat)
    requires Dims(a, n) && j < |a|
  {
    && |l| == |a| && l[j] > 0.0
    && (forall k :: j < k < |a| ==> l[k] == 0.0)
    && v == Comb(a, l, |a|, n)
  }

  lemma StartSpanned(a: seq<Vec>, j: nat, n: nat)
    requires Dims(a, n) && j < |a|
    ensures Spanned(a[j], a, Unit(|a|, j), j, n)
  {
    CombUnit(a, j, |a|, n);
  }

  lemma ScaleSpanned(v: Vec, a: seq<Vec>, l: Vec, j: nat, n: nat, x: real)
    requires Dims(a, n) && j < |a| && Spanned(v, a, l, j, n) && x > 0.0
    ensures Spanned(Scale(x, v), a, Scale(x, l), j, n)
  {
    CombScale(a, x, l, |a|, n);
    assert l[j] * x > 0.0;
  }

  lemma AxpySpanned(v: Vec, l: Vec, j: nat, x: real, q: Vec, m: Vec, i: nat, a: seq<Vec>, n: nat)
    requires Dims(a, n) && i < j < |a|
    requires Spanned(v, a, l, j, n) && Spanned(q, a, m, i, n)
    ensures Spanned(Axpy(v, x, q), a, Axpy(l, x, m), j, n)
  {
    CombAxpy(a, l, x, m, |a|, n);
    assert forall k :: j <= k < |a| ==> x * m[k] == 0.0;
  }

  lemma SweepSpanned(p: Progress, i: nat, s: real, a: seq<Vec>, m: Vec, l: Vec, j: nat, n: nat)
    returns (r: Vec)
    requires Sized(p, n) && |p.v| == |a| && Dims(a, n) && i < |a| && j < |a| && s > 0.0
    requires Spanned(p.v[i], a, m, i, n) && Spanned(p.v[j], a, l, j, n)
    ensures Spanned(Sweep(p, i, s, n).v[j], a, r, j, n)
  {
    var x := 1.0 / s;
    var q := Scale(x, p.v[i]);
    ScaleSpanned(p.v[i], a, m, i, n, x);
    if j < i {
      r := l;
    } else if j == i {
      r := Scale(x, m);
    } else {
      r := Axpy(l, -Dot(q, p.v[j]), Scale(x, m));
      AxpySpanned(p.v[j], l, j, -Dot(q, p.v[j]), q, Scale(x, m), i, a, n);
    }
  }

  lemma {:induction false} AfterSpanned(sqrt: real -> real, a: seq<Vec>, i: nat, j: nat, n: nat)
    returns (l: Vec)
    requires IsSqrt(sqrt) && Dims(a, n) && i <= |a| && j < |a| && After(sqrt, a, i, n).Some?
    ensures Spanned(After(sqrt, a, i, n).value.v[j], a, l, j, n)
    decreases i
  {
    if i == 0 {
      l := Unit(|a|, j);
      StartSpanned(a, j, n);
    } else {
      var p := AfterStep(sqrt, a, i, n);
      var m := AfterSpanned(sqrt, a, i - 1, i - 1, n);
      l := AfterSpanned(sqrt, a, i - 1, j, n);
      l := SweepSpanned(p, i - 1, NormOf(sqrt, p, i - 1, n), a, m, l, j, n);
    }
  }

  lemma {:induction false} StopsOnlyOnDependence(sqrt: real -> real, a: seq<Vec>, i: nat, n: nat)
    requires IsSqrt(sqrt) && Dims(a, n) && i <= |a| && After(sqrt, a, i, n).None?
    ensures !Independent(a, n)
  {
    assert i > 0;
    if After(sqrt, a, i - 1, n).None? {
      StopsOnlyOnDependence(sqrt, a, i - 1, n);
    } else {
      var v := After(sqrt, a, i - 1, n).value.v[i - 1];
      NormIsDefinite(v);
      var l := AfterSpanned(sqrt, a, i - 1, i - 1, n);
      assert Comb(a, l, |a|, n) == Zero(n) && l[i - 1] != Zero(|a|)[i - 1];
    }
  }

  lemma {:induction false} OrthonormalPick(v: seq<Vec>, m: nat, c: Vec, k: nat, size: nat, n: nat)
    requires Dims(v, n) && size <= |v| && Orthonormal(v, size, n) && m < size && k <= |c| && k <= size
    ensures CombDots(v[m], v, c, k) == if m < k then c[m] else 0.0
  {
    if k > 0 {
      OrthonormalPick(v, m, c, k - 1, size, n);
      assert Dot(v[m], v[k - 1]) == if m == k - 1 then 1.0 else 0.0;
    }
  }

  /** Output column `m` meets original column `j` in the recorded coefficient. */
  lemma DotOriginal(p: Progress, a: seq<Vec>, m: nat, j: nat, n: nat)
    requires Kept(p, a, |a|, n) && m < |a| && j < |a| && Dims(a, n)
    ensures Dot(p.v[m], a[j]) == if m <= j then p.c[j][m] else 0.0
  {
    assert FactoredAt(p, a[j], |a|, j, n);
    DotComb(p.v[m], p.v, p.c[j], j + 1);
    OrthonormalPick(p.v, m, p.c[j], j + 1, |a|, n);
  }

  /** If `q` is orthogonal to the columns before `m` and the coefficients behind it vanish,
      only the diagonal term is left. */
  lemma {:induction false} DotsTriangular(q: Vec, a: seq<Vec>, m: nat, c: Vec, k: nat)
    requires Dims(a, |q|) && m < |a| && |c| == |a| && k <= |a|
    requires forall j :: 0 <= j < m ==> Dot(q, a[j]) == 0.0
    requires forall j :: m < j < |a| ==> c[j] == 0.0
    ensures CombDots(q, a, c, k) == if m < k then c[m] * Dot(q, a[m]) else 0.0
  {
    if k > 0 { DotsTriangular(q, a, m, c, k - 1); }
  }

  lemma ZeroFactor(x: real, y: real)
    requires x * y == 0.0 && y > 0.0
    ensures x == 0.0
  {
  }

  lemma {:induction false} TopCoefficientsVanish(p: Progress, a: seq<Vec>, c: Vec, m: nat, n: nat)
    requires Kept(p, a, |a|, n) && Dims(a, n) && |c| == |a| && m <= |a|
    requires Comb(a, c, |a|, n) == Zero(n)
    ensures forall j :: m <= j < |a| ==> c[j] == 0.0
    decreases |a| - m
  {
    if m < |a| {
      TopCoefficientsVanish(p, a, c, m + 1, n);
      DotComb(p.v[m], a, c, |a|);
      DotToZero(p.v[m], n, n);
      assert FactoredAt(p, a[m], |a|, m, n);
      forall j | 0 <= j <= m ensures Dot(p.v[m], a[j]) == if j < m then 0.0 else p.c[m][m] {
        DotOriginal(p, a, m, j, n);
      }
      DotsTriangular(p.v[m], a, m, c, |a|);
      ZeroFactor(c[m], p.c[m][m]);
    }
  }

  /** The exact condition: no norm ever vanishes if and only if the columns are linearly
      independent. */
  lemma DefinedExactlyOnIndependence(sqrt: real -> real, a: seq<Vec>, n: nat)
    requires IsSqrt(sqrt) && Dims(a, n)
    ensures After(sqrt, a, |a|, n).Some? <==> Independent(a, n)
  {
    if After(sqrt, a, |a|, n).None? {
      StopsOnlyOnDependence(sqrt, a, |a|, n);
    } else {
      AfterKeeps(sqrt, a, |a|, n);
      var p := After(sqrt, a, |a|, n).value;
      forall c: Vec | |c| == |a| && Comb(a, c, |a|, n) == Zero(n) ensures c == Zero(|a|) {
        TopCoefficientsVanish(p, a, c, 0, n);
      }
    }
  }

  // ---------------------------------------------------------------- the matrix of mat_init

  function InitialEntry(sin: real -> real, rows: nat, i: nat, j: nat): real {
    if i != j then sin((if i < j then j - i else i - j) as real) else rows as real
  }

  function InitialColumns(sin: real -> real, cols: nat, rows: nat): seq<Vec> {
    seq(cols, i requires 0 <= i < cols =>
      seq(rows, j requires 0 <= j < rows => InitialEntry(sin, rows, i, j)))
  }

  predicate Within(x: real, bound: real) {
    -bound <= x <= bound
  }

  lemma NonNegativeProduct(x: real, y: real)
    requires x >= 0.0 && y >= 0.0
    ensures x * y >= 0.0
  {
  }

  lemma WithinProduct(c: real, x: real, bound: real)
    requires Within(c, bound) && Within(x, 1.0)
    ensures Within(c * x, bound)
  {
    NonNegativeProduct(bound - c, 1.0 + x);
    NonNegativeProduct(bound + c, 1.0 - x);
    assert c * x <= bound;
    NonNegativeProduct(bound - c, 1.0 - x);
    NonNegativeProduct(bound + c, 1.0 + x);
  }

  lemma WithinSum(x: real, b: real, y: real, d: real)
    requires Within(x, b) && Within(y, d)
    ensures Within(x + y, b + d)
  {
  }

  function Multiple(x: real, k: nat): real {
    if k == 0 then 0.0 else Multiple(x, k - 1) + x
  }

  lemma {:induction false} MultipleIsProduct(x: real, k: nat)
    ensures Multiple(x, k) == x * k as real
  {
    if k > 0 {
      MultipleIsProduct(x, k - 1);
      var y := (k - 1) as real;
      assert k as real == y + 1.0;
      assert x * (y + 1.0) == x * y + x;
    }
  }

  lemma {:induction false} MultipleGrows(x: real, j: nat, k: nat)
    requires x > 0.0 && j < k
    ensures Multiple(x, j) < Multiple(x, k)
  {
    if j < k - 1 { MultipleGrows(x, j, k - 1); }
  }

  /** The sum of the products of the first `k` entries, without the one at `m`. */
  function DotWithout(c: Vec, t: Vec, m: nat, k: nat): real
    requires |c| == |t| && k <= |c|
  {
    if k == 0 then 0.0
    else DotWithout(c, t, m, k - 1) + if k - 1 == m then 0.0 else c[k - 1] * t[k - 1]
  }

  lemma {:induction false} DotSplits(c: Vec, t: Vec, m: nat, k: nat)
    requires |c| == |t| && m < |c| && k <= |c|
    ensures DotTo(c, t, k) == DotWithout(c, t, m, k) + if m < k then c[m] * t[m] else 0.0
  {
    if k > 0 { DotSplits(c, t, m, k - 1); }
  }

  lemma OneMoreTerm(sum: real, terms: nat, c: real, t: real, bound: real)
    requires Within(sum, Multiple(bound, terms)) && Within(c, bound) && Within(t, 1.0)
    ensures Within(sum + c * t, Multiple(bound, terms + 1))
  {
    WithinProduct(c, t, bound);
    WithinSum(sum, Multiple(bound, terms), c * t, bound);
  }

  /** With numbers in [-1, 1] it is at most the number of terms times the largest
      coefficient. */
  lemma {:induction false} OffDiagonalBound(c: Vec, t: Vec, m: nat, bound: real, k: nat)
    requires |c| == |t| && m < |c| && k <= |c|
    requires forall j :: 0 <= j < |c| ==> Within(c[j], bound)
    requires forall j :: 0 <= j < |c| && j != m ==> Within(t[j], 1.0)
    ensures Within(DotWithout(c, t, m, k), Multiple(bound, if k <= m then k else k - 1))
  {
    if k > 0 {
      OffDiagonalBound(c, t, m, bound, k - 1);
      if k - 1 != m {
        OneMoreTerm(DotWithout(c, t, m, k - 1), if k <= m then k - 1 else k - 2, c[k - 1], t[k - 1], bound);
      }
    }
  }

  /** Row `r` as a vector of coefficients. */
  function Row(v: seq<Vec>, k: nat, r: nat, n: nat): Vec
    requires k <= |v| && Dims(v, n) && r < n
  {
    seq(k, l requires 0 <= l < k => v[l][r])
  }

  lemma {:induction false} CombRow(a: seq<Vec>, c: Vec, k: nat, r: nat, n: nat)
    requires Dims(a, n) && k <= |a| && k <= |c| && r < n
    ensures Comb(a, c, k, n)[r] == DotTo(c, Row(a, |a|, r, n), k)
  {
    if k > 0 { CombRow(a, c, k - 1, r, n); }
  }

  lemma {:induction false} LargestCoefficient(c: Vec, k: nat) returns (m: nat, bound: real)
    requires 0 < k <= |c|
    ensures m < k && (bound == c[m] || bound == -c[m])
    ensures forall j :: 0 <= j < k ==> Within(c[j], bound)
  {
    if k == 1 {
      m, bound := 0, if c[0] < 0.0 then -c[0] else c[0];
    } else {
      m, bound := LargestCoefficient(c, k - 1);
      if !Within(c[k - 1], bound) {
        m, bound := k - 1, if c[k - 1] < 0.0 then -c[k - 1] else c[k - 1];
      }
    }
  }

  lemma DiagonalProduct(c: real, bound: real, d: real)
    requires bound == c || bound == -c
    ensures bound * d == c * d || bound * d == -(c * d)
  {
  }

  /** A combination with a dominant term does not vanish unless its coefficients do. */
  lemma DominantTerm(c: Vec, t: Vec, m: nat, bound: real, rows: nat)
    requires |c| == |t| <= rows && m < |c| && t[m] == rows as real && (bound == c[m] || bound == -c[m])
    requires forall j :: 0 <= j < |c| ==> Within(c[j], bound)
    requires forall j :: 0 <= j < |c| && j != m ==> Within(t[j], 1.0)
    requires DotTo(c, t, |c|) == 0.0
    ensures bound <= 0.0
  {
    var w, x := DotWithout(c, t, m, |c|), c[m] * rows as real;
    DotSplits(c, t, m, |c|);
    assert w + x == 0.0;
    OffDiagonalBound(c, t, m, bound, |c|);
    DiagonalProduct(c[m], bound, rows as real);
    MultipleIsProduct(bound, rows);
    if bound > 0.0 { MultipleGrows(bound, |c| - 1, rows); }
  }

  /** The leading square block is strictly diagonally dominant, so the columns of mat_init
      are independent. */
  lemma InitialIndependent(sin: real -> real, cols: nat, rows: nat)
    requires IsSin(sin) && cols <= rows
    ensures Independent(InitialColumns(sin, cols, rows), rows)
  {
    var a := InitialColumns(sin, cols, rows);
    forall c: Vec | |c| == cols && Comb(a, c, cols, rows) == Zero(rows) ensures c == Zero(cols) {
      if cols > 0 {
        var m, bound := LargestCoefficient(c, cols);
        CombRow(a, c, cols, m, rows);
        DominantTerm(c, Row(a, cols, m, rows), m, bound, rows);
      }
    }
  }

  // ---------------------------------------------------------------- more columns than rows

  /** v[0][r]*w[0][r] + ... + v[k-1][r]*w[k-1][r] */
  function RowDot(v: seq<Vec>, w: seq<Vec>, k: nat, r: nat, n: nat): real
    requires k <= |v| && k <= |w| && Dims(v, n) && Dims(w, n) && r < n
  {
    if k == 0 then 0.0 else RowDot(v, w, k - 1, r, n) + v[k - 1][r] * w[k - 1][r]
  }

  function SumOfRows(v: seq<Vec>, w: seq<Vec>, k: nat, r: nat, n: nat): real
    requires k <= |v| && k <= |w| && Dims(v, n) && Dims(w, n) && r <= n
  {
    if r == 0 then 0.0 else SumOfRows(v, w, k, r - 1, n) + RowDot(v, w, k, r - 1, n)
  }

  /** Summing by rows is summing by columns. */
  lemma {:induction false} SumSwap(v: seq<Vec>, w: seq<Vec>, k: nat, r: nat, n: nat)
    requires 0 < k <= |v| && k <= |w| && Dims(v, n) && Dims(w, n) && r <= n
    ensures SumOfRows(v, w, k, r, n) == SumOfRows(v, w, k - 1, r, n) + DotTo(v[k - 1], w[k - 1], r)
  {
    if r > 0 { SumSwap(v, w, k, r - 1, n); }
  }

  lemma {:induction false} SumOfNothing(v: seq<Vec>, w: seq<Vec>, r: nat, n: nat)
    requires Dims(v, n) && Dims(w, n) && r <= n
    ensures SumOfRows(v, w, 0, r, n) == 0.0
  {
    if r > 0 { SumOfNothing(v, w, r - 1, n); }
  }

  lemma {:induction false} SumOfUnits(v: seq<Vec>, k: nat, n: nat)
    requires k <= |v| && Dims(v, n) && Orthonormal(v, k, n)
    ensures SumOfRows(v, v, k, n, n) == k as real
  {
    if k == 0 {
      SumOfNothing(v, v, n, n);
    } else {
      SumOfUnits(v, k - 1, n);
      SumSwap(v, v, k, n, n);
      assert Dot(v[k - 1], v[k - 1]) == 1.0;
    }
  }

  lemma {:induction false} DotUnit(a: Vec, r: nat, k: nat)
    requires r < |a| && k <= |a|
    ensures DotTo(a, Unit(|a|, r), k) == if r < k then a[r] else 0.0
  {
    if k > 0 { DotUnit(a, r, k - 1); }
  }

  lemma {:induction false} RowDots(e: Vec, v: seq<Vec>, c: Vec, k: nat, r: nat, n: nat)
    requires |e| == n && Dims(v, n) && k <= |v| && k <= |c| && r < n
    requires forall l :: 0 <= l < k ==> c[l] == v[l][r] && Dot(e, v[l]) == v[l][r]
    ensures CombDots(e, v, c, k) == RowDot(v, v, k, r, n)
  {
    if k > 0 { RowDots(e, v, c, k - 1, r, n); }
  }

  /** Bessel's inequality for a coordinate direction. */
  lemma RowAtMostOne(v: seq<Vec>, k: nat, r: nat, n: nat)
    requires k <= |v| && Dims(v, n) && Orthonormal(v, k, n) && r < n
    ensures RowDot(v, v, k, r, n) <= 1.0
  {
    var e, c := Unit(n, r), Row(v, k, r, n);
    var y := Comb(v, c, k, n);
    var w := Axpy(e, -1.0, y);
    forall l | 0 <= l < k ensures Dot(e, v[l]) == v[l][r] && Dot(y, v[l]) == v[l][r] {
      DotUnit(v[l], r, n);
      DotComm(v[l], e);
      DotComb(v[l], v, c, k);
      OrthonormalPick(v, l, c, k, k, n);
      DotComm(v[l], y);
    }
    DotComb(e, v, c, k);
    RowDots(e, v, c, k, r, n);
    DotComb(y, v, c, k);
    RowDots(y, v, c, k, r, n);
    DotUnit(e, r, n);
    DotComm(y, e);
    DotAxpy(w, e, -1.0, y);
    DotComm(w, e);
    DotAxpy(e, e, -1.0, y);
    DotComm(w, y);
    DotAxpy(y, e, -1.0, y);
    NormIsDefinite(w);
  }

  lemma {:induction false} RowsAtMost(v: seq<Vec>, k: nat, r: nat, n: nat)
    requires k <= |v| && Dims(v, n) && Orthonormal(v, k, n) && r <= n
    ensures SumOfRows(v, v, k, r, n) <= r as real
  {
    if r > 0 {
      RowsAtMost(v, k, r - 1, n);
      RowAtMostOne(v, k, r - 1, n);
    }
  }

  /** There are no more orthonormal vectors than coordinates. */
  lemma OrthonormalFits(v: seq<Vec>, k: nat, n: nat)
    requires k <= |v| && Dims(v, n) && Orthonormal(v, k, n)
    ensures k <= n
  {
    SumOfUnits(v, k, n);
    RowsAtMost(v, k, n, n);
  }

  /** The exact condition for the matrix of mat_init: its norms never vanish if and only if
      it has no more columns than rows. */
  lemma InitialDefinedExactlyWhenTall(sqrt: real -> real, sin: real -> real, cols: nat, rows: nat)
    requires IsSqrt(sqrt) && IsSin(sin)
    ensures After(sqrt, InitialColumns(sin, cols, rows), cols, rows).Some? <==> cols <= rows
  {
    var a := InitialColumns(sin, cols, rows);
    if cols <= rows {
      InitialIndependent(sin, cols, rows);
      DefinedExactlyOnIndependence(sqrt, a, rows);
    } else if After(sqrt, a, cols, rows).Some? {
      AfterKeeps(sqrt, a, cols, rows);
      OrthonormalFits(After(sqrt, a, cols, rows).value.v, cols, rows);
    }
  }

  // ---------------------------------------------------------------- the program

  ghost function Column(m: array2<real>, i: nat): (r: Vec)
    requires i < m.Length0
    reads m
    ensures |r| == m.Length1
  {
    seq(m.Length1, k requires 0 <= k < m.Length1 reads m => m[i, k])
  }

  ghost function Columns(m: array2<real>): (r: seq<Vec>)
    reads m
    ensures |r| == m.Length0 && Dims(r, m.Length1)
  {
    seq(m.Length0, i requires 0 <= i < m.Length0 reads m => Column(m, i))
  }

  /** mat_init. The entry depends on the distance from the diagonal only: the number of rows
      on it, and the sine of the distance off it. */
  method MatInit(m: array2<real>, sin: real -> real)
    modifies m
    ensures Columns(m) == InitialColumns(sin, m.Length0, m.Length1)
    ensures forall i :: 0 <= i < m.Length0 && i < m.Length1 ==> m[i, i] == m.Length1 as real
    ensures m.Length0 > 0 ==> forall j :: 0 < j < m.Length1 ==> m[0, j] == sin(j as real)
    ensures m.Length1 > 0 ==> forall i :: 0 < i < m.Length0 ==> m[i, 0] == sin(i as real)
    ensures forall i, j :: 0 < i < m.Length0 && 0 < j < m.Length1 ==> m[i, j] == m[i - 1, j - 1]
  {
    for i := 0 to m.Length0
      invariant forall c, r :: 0 <= c < i && 0 <= r < m.Length1 ==> m[c, r] == InitialEntry(sin, m.Length1, c, r)
    {
      for j := 0 to m.Length1
        invariant forall c, r :: 0 <= c < i && 0 <= r < m.Length1 ==> m[c, r] == InitialEntry(sin, m.Length1, c, r)
        invariant forall r :: 0 <= r < j ==> m[i, r] == InitialEntry(sin, m.Length1, i, r)
      {
        if i != j {
          m[i, j] := sin((if i < j then j - i else i - j) as real);
        } else {
          m[i, j] := m.Length1 as real;
        }
      }
    }
    forall i | 0 <= i < m.Length0
      ensures Column(m, i) == InitialColumns(sin, m.Length0, m.Length1)[i]
    {
    }
  }

  /** The summing loop that up_mgs and orth_err share. */
  method ColumnDot(m: array2<real>, i: nat, j: nat) returns (s: real)
    requires i < m.Length0 && j < m.Length0
    ensures s == Dot(Column(m, i), Column(m, j))
  {
    s := 0.0;
    for k := 0 to m.Length1
      invariant s == DotTo(Column(m, i), Column(m, j), k)
    {
      s := s + m[i, k] * m[j, k];
    }
  }

  method ScaleColumn(m: array2<real>, i: nat, x: real)
    requires i < m.Length0
    modifies m
    ensures Columns(m) == old(Columns(m))[i := Scale(x, old(Column(m, i)))]
  {
    ghost var a := Column(m, i);
    for k := 0 to m.Length1
      invariant forall c, r :: 0 <= c < m.Length0 && 0 <= r < m.Length1 ==>
        m[c, r] == if c == i && r < k then a[r] * x else old(m[c, r])
    {
      m[i, k] := m[i, k] * x;
    }
    forall k | 0 <= k < m.Length1 ensures Column(m, i)[k] == Scale(x, a)[k] {
    }
    assert Column(m, i) == Scale(x, a);
    forall c | 0 <= c < m.Length0 && c != i ensures Column(m, c) == old(Column(m, c)) {
    }
  }

  method AddMultiple(m: array2<real>, j: nat, x: real, i: nat)
    requires i < m.Length0 && j < m.Length0 && i != j
    modifies m
    ensures Columns(m) == old(Columns(m))[j := Axpy(old(Column(m, j)), x, old(Column(m, i)))]
  {
    ghost var a, b := Column(m, j), Column(m, i);
    for k := 0 to m.Length1
      invariant forall c, r :: 0 <= c < m.Length0 && 0 <= r < m.Length1 ==>
        m[c, r] == if c == j && r < k then a[r] + x * b[r] else old(m[c, r])
    {
      m[j, k] := m[j, k] + x * m[i, k];
    }
    forall k | 0 <= k < m.Length1 ensures Column(m, j)[k] == Axpy(a, x, b)[k] {
    }
    assert Column(m, j) == Axpy(a, x, b);
    forall c | 0 <= c < m.Length0 && c != j ensures Column(m, c) == old(Column(m, c)) {
    }
  }

  /** The inner loop over later columns: after it, the columns are those of one sweep. */
  method PropagateColumn(m: array2<real>, i: nat, ghost p: Progress, ghost s: real)
    requires i < m.Length0 && Sized(p, m.Length1) && |p.v| == m.Length0 && s != 0.0
    requires Columns(m) == p.v[i := Scale(1.0 / s, p.v[i])]
    modifies m
    ensures Columns(m) == Sweep(p, i, s, m.Length1).v
  {
    ghost var n := m.Length1;
    for j := i + 1 to m.Length0
      invariant forall l :: 0 <= l < m.Length0 ==>
        Columns(m)[l] == if l < j then Sweep(p, i, s, n).v[l] else p.v[l]
    {
      var comp := ColumnDot(m, i, j);
      comp := -comp;
      assert Column(m, i) == Columns(m)[i] == Sweep(p, i, s, n).v[i];
      assert Column(m, j) == Columns(m)[j] == p.v[j];
      AddMultiple(m, j, comp, i);
    }
  }

  /** Column `j` of `a` is the combination c[j] of output columns `0..j`, and its last
      coefficient is positive. */
  ghost predicate IsFactorisation(a: seq<Vec>, q: seq<Vec>, c: seq<Vec>, n: nat)
    requires Dims(q, n) && |a| == |q|
  {
    |c| == |a| &&
    forall j :: 0 <= j < |a| ==>
      |c[j]| == j + 1 && c[j][j] > 0.0 && a[j] == Comb(q, c[j], j + 1, n)
  }

  lemma FactorsAll(p: Progress, a: seq<Vec>, n: nat)
    requires Kept(p, a, |a|, n)
    ensures IsFactorisation(a, p.v, p.c, n)
  {
    forall j | 0 <= j < |a|
      ensures |p.c[j]| == j + 1 && p.c[j][j] > 0.0 && a[j] == Comb(p.v, p.c[j], j + 1, n)
    {
      assert FactoredAt(p, a[j], |a|, j, n);
    }
  }

  lemma DoneIsCorrect(sqrt: real -> real, a: seq<Vec>, n: nat)
    requires IsSqrt(sqrt) && Dims(a, n) && After(sqrt, a, |a|, n).Some?
    ensures Independent(a, n)
    ensures Orthonormal(After(sqrt, a, |a|, n).value.v, |a|, n)
    ensures IsFactorisation(a, After(sqrt, a, |a|, n).value.v, After(sqrt, a, |a|, n).value.c, n)
  {
    DefinedExactlyOnIndependence(sqrt, a, n);
    AfterKeeps(sqrt, a, |a|, n);
    FactorsAll(After(sqrt, a, |a|, n).value, a, n);
  }

  lemma ZeroNormMeansDependent(sqrt: real -> real, a: seq<Vec>, i: nat, n: nat)
    requires IsSqrt(sqrt) && Dims(a, n) && i < |a| && After(sqrt, a, i, n).Some?
    requires var v := After(sqrt, a, i, n).value.v[i]; Dot(v, v) == 0.0
    ensures !Independent(a, n)
  {
    StopsOnlyOnDependence(sqrt, a, i + 1, n);
  }

  lemma AfterSweep(sqrt: real -> real, a: seq<Vec>, i: nat, n: nat)
    requires IsSqrt(sqrt) && Dims(a, n) && i < |a| && After(sqrt, a, i, n).Some?
    requires var v := After(sqrt, a, i, n).value.v[i]; Dot(v, v) != 0.0
    ensures var p := After(sqrt, a, i, n).value;
            After(sqrt, a, i + 1, n) == Some(Sweep(p, i, NormOf(sqrt, p, i, n), n))
  {
  }

  /** up_mgs. `ok` is false when a column of norm zero is met, where the program divides
      by zero. That happens exactly when the columns are dependent; otherwise the result
      is orthonormal, and the norms and projections met on the way factor the input. */
  method UpMgs(m: array2<real>, sqrt: real -> real) returns (ok: bool)
    requires IsSqrt(sqrt)
    modifies m
    ensures ok <==> Independent(old(Columns(m)), m.Length1)
    ensures ok ==> Orthonormal(Columns(m), m.Length0, m.Length1)
    ensures ok ==>
              var p := After(sqrt, old(Columns(m)), m.Length0, m.Length1);
              p.Some? && Columns(m) == p.value.v && IsFactorisation(old(Columns(m)), Columns(m), p.value.c, m.Length1)
  {
    ghost var a, n := Columns(m), m.Length1;
    for i := 0 to m.Length0
      invariant After(sqrt, a, i, n).Some? && Columns(m) == After(sqrt, a, i, n).value.v
    {
      ghost var p := After(sqrt, a, i, n).value;
      assert Column(m, i) == p.v[i];
      var tmp := ColumnDot(m, i, i);
      if tmp == 0.0 {
        ZeroNormMeansDependent(sqrt, a, i, n);
        return false;
      }
      AfterSweep(sqrt, a, i, n);
      var xnorm := 1.0 / sqrt(tmp);
      ScaleColumn(m, i, xnorm);
      PropagateColumn(m, i, p, NormOf(sqrt, p, i, n));
    }
    ok := true;
    DoneIsCorrect(sqrt, a, n);
  }

  function Abs(x: real): (r: real)
    ensures r >= 0.0 && (r == x || r == -x)
  {
    if x < 0.0 then -x else x
  }

  /** How far a pair of columns is from orthonormal. */
  ghost function Deviation(v: seq<Vec>, i: nat, j: nat, n: nat): real
    requires Dims(v, n) && i < |v| && j < |v|
  {
    Abs(Dot(v[i], v[j]) - if i == j then 1.0 else 0.0)
  }

  /** The pairs the nested loops have looked at when the outer one is at `j` and the inner
      one at `i`. */
  predicate Visited(b: int, a: int, j: int, i: int) {
    b < j || (b == j && a < i)
  }

  /** `err` is the largest deviation among the pairs visited, or 0 if there is none. */
  ghost predicate IsLargest(err: real, v: seq<Vec>, j: nat, i: nat, n: nat)
    requires Dims(v, n)
  {
    && err >= 0.0
    && (forall b, a :: 0 <= b <= a < |v| && Visited(b, a, j, i) ==> Deviation(v, a, b, n) <= err)
    && (err == 0.0 || exists b, a :: 0 <= b <= a < |v| && Visited(b, a, j, i) && err == Deviation(v, a, b, n))
  }

  lemma LargerOne(err: real, v: seq<Vec>, j: nat, i: nat, n: nat, e: real)
    requires Dims(v, n) && j <= i < |v| && IsLargest(err, v, j, i, n)
    requires e == Deviation(v, i, j, n)
    ensures IsLargest(if err > e then err else e, v, j, i + 1, n)
  {
    assert Visited(j, i, j, i + 1);
    assert forall b, a :: Visited(b, a, j, i) ==> Visited(b, a, j, i + 1);
  }

  lemma NextRow(err: real, v: seq<Vec>, j: nat, n: nat)
    requires Dims(v, n) && j < |v| && IsLargest(err, v, j, |v|, n)
    ensures IsLargest(err, v, j + 1, j + 1, n)
  {
    assert forall b, a :: 0 <= b <= a < |v| ==> (Visited(b, a, j, |v|) <==> Visited(b, a, j + 1, j + 1));
  }

  lemma ZeroMeansOrthonormal(err: real, v: seq<Vec>, n: nat)
    requires Dims(v, n) && IsLargest(err, v, |v|, |v|, n)
    ensures err == 0.0 <==> Orthonormal(v, |v|, n)
  {
    if err == 0.0 {
      forall a, b | 0 <= a < |v| && 0 <= b < |v|
        ensures Dot(v[a], v[b]) == if a == b then 1.0 else 0.0
      {
        DotComm(v[a], v[b]);
        var x, y := if a < b then b else a, if a < b then a else b;
        assert Visited(y, x, |v|, |v|);
        assert Deviation(v, x, y, n) <= 0.0;
      }
    } else {
      var b, a :| 0 <= b <= a < |v| && Visited(b, a, |v|, |v|) && err == Deviation(v, a, b, n);
    }
  }

  /** orth_err: the largest deviation over all pairs, hence 0 exactly on orthonormal
      columns. */
  method OrthErr(m: array2<real>) returns (err: real)
    ensures IsLargest(err, Columns(m), m.Length0, m.Length0, m.Length1)
    ensures err == 0.0 <==> Orthonormal(Columns(m), m.Length0, m.Length1)
  {
    ghost var v, n := Columns(m), m.Length1;
    err := 0.0;
    for j := 0 to m.Length0
      invariant IsLargest(err, v, j, j, n)
    {
      assert Column(m, j) == v[j];
      var s := ColumnDot(m, j, j);
      s := s - 1.0;
      LargerOne(err, v, j, j, n, Abs(s));
      err := if err > Abs(s) then err else Abs(s);
      for i := j + 1 to m.Length0
        invariant IsLargest(err, v, j, i, n)
      {
        assert Column(m, i) == v[i];
        s := ColumnDot(m, i, j);
        LargerOne(err, v, j, i, n, Abs(s));
        err := if err > Abs(s) then err else Abs(s);
      }
      NextRow(err, v, j, n);
    }
    ZeroMeansOrthonormal(err, v, n);
  }

  /** One loop of main: on every matrix it is run on with no more columns than rows, the
      test is defined and its error is exactly zero; with more columns than rows it divides
      by zero. */
  method TestOnce(m: array2<real>, sqrt: real -> real, sin: real -> real) returns (ok: bool, err: real)
    requires IsSqrt(sqrt) && IsSin(sin)
    modifies m
    ensures ok <==> m.Length0 <= m.Length1
    ensures ok ==> err == 0.0
  {
    MatInit(m, sin);
    InitialDefinedExactlyWhenTall(sqrt, sin, m.Length0, m.Length1);
    DefinedExactlyOnIndependence(sqrt, Columns(m), m.Length1);
    ok := UpMgs(m, sqrt);
    err := OrthErr(m);
  }
}
