/** Exact rational vectors; Python's Fraction is modelled by real. */
module Vectors {

  type Vec = seq<real>

  /** The sum of the first n products. */
  ghost function Dot(a: Vec, b: Vec, n: nat): real
    requires n <= |a| && n <= |b|
  {
    if n == 0 then 0.0 else Dot(a, b, n - 1) + a[n - 1] * b[n - 1]
  }

  function Zero(n: nat): (v: Vec)
  {
    seq(n, _ => 0.0)
  }

  /** base + factor * step, coordinate by coordinate. */
  function AddScaled(base: Vec, factor: real, step: Vec): (v: Vec)
    requires |base| == |step|
  {
    seq(|base|, i requires 0 <= i < |base| => base[i] + factor * step[i])
  }

  /** cs[0] * vs[0] + ... + cs[k - 1] * vs[k - 1], in n coordinates. */
  ghost function Combination(cs: Vec, vs: seq<Vec>, n: nat, k: nat): (v: Vec)
    requires k <= |cs| && k <= |vs|
    requires forall i :: 0 <= i < k ==> |vs[i]| == n
    ensures |v| == n
  {
    if k == 0 then Zero(n) else AddScaled(Combination(cs, vs, n, k - 1), cs[k - 1], vs[k - 1])
  }

  lemma {:induction false} DotAddScaledLeft(base: Vec, factor: real, step: Vec, x: Vec, n: nat)
    requires n <= |base| == |step| && n <= |x|
    ensures Dot(AddScaled(base, factor, step), x, n) == Dot(base, x, n) + factor * Dot(step, x, n)
  {
    if n > 0 {
      DotAddScaledLeft(base, factor, step, x, n - 1);
      var a, b, c := base[n - 1], step[n - 1], x[n - 1];
      assert (a + factor * b) * c == a * c + factor * (b * c);
      assert factor * (Dot(step, x, n - 1) + b * c) == factor * Dot(step, x, n - 1) + factor * (b * c);
    }
  }

  lemma {:induction false} DotAddScaledRight(row: Vec, base: Vec, factor: real, step: Vec, n: nat)
    requires n <= |base| == |step| && n <= |row|
    ensures Dot(row, AddScaled(base, factor, step), n) == Dot(row, base, n) + factor * Dot(row, step, n)
  {
    if n > 0 {
      DotAddScaledRight(row, base, factor, step, n - 1);
      var a, b, c := base[n - 1], step[n - 1], row[n - 1];
      assert c * (a + factor * b) == c * a + factor * (c * b);
      assert factor * (Dot(row, step, n - 1) + c * b) == factor * Dot(row, step, n - 1) + factor * (c * b);
    }
  }

  lemma ZeroProduct(x: real, y: real)
    requires x == 0.0 || y == 0.0
    ensures x * y == 0.0
  {
  }

  /** Only coordinate i contributes. */
  lemma {:induction false} DotSingle(a: Vec, b: Vec, n: nat, i: nat)
    requires i < n <= |a| && n <= |b|
    requires forall c :: 0 <= c < n && c != i ==> a[c] == 0.0 || b[c] == 0.0
    ensures Dot(a, b, n) == a[i] * b[i]
  {
    if i < n - 1 {
      DotSingle(a, b, n - 1, i);
      ZeroProduct(a[n - 1], b[n - 1]);
    } else {
      DotNone(a, b, n - 1);
      assert i == n - 1;
    }
  }

  lemma {:induction false} DotNone(a: Vec, b: Vec, n: nat)
    requires n <= |a| && n <= |b|
    requires forall c :: 0 <= c < n ==> a[c] == 0.0 || b[c] == 0.0
    ensures Dot(a, b, n) == 0.0
  {
    if n > 0 {
      DotNone(a, b, n - 1);
      ZeroProduct(a[n - 1], b[n - 1]);
    }
  }

  /** Only coordinates i and j contribute. */
  lemma {:induction false} DotPair(a: Vec, b: Vec, n: nat, i: nat, j: nat)
    requires i < n <= |a| && j < n <= |b| && i != j
    requires forall c :: 0 <= c < n && c != i && c != j ==> a[c] == 0.0 || b[c] == 0.0
    ensures Dot(a, b, n) == a[i] * b[i] + a[j] * b[j]
  {
    if n - 1 == i {
      DotSingle(a, b, n - 1, j);
    } else if n - 1 == j {
      DotSingle(a, b, n - 1, i);
    } else {
      DotPair(a, b, n - 1, i, j);
      ZeroProduct(a[n - 1], b[n - 1]);
    }
  }

  /** A combination of vectors orthogonal to a row is orthogonal to it. */
  lemma {:induction false} CombinationOrthogonal(row: Vec, cs: Vec, vs: seq<Vec>, n: nat, k: nat)
    requires |row| == n && k <= |cs| && k <= |vs|
    requires forall i :: 0 <= i < k ==> |vs[i]| == n && Dot(row, vs[i], n) == 0.0
    ensures Dot(row, Combination(cs, vs, n, k), n) == 0.0
  {
    if k == 0 {
      DotNone(row, Zero(n), n);
    } else {
      CombinationOrthogonal(row, cs, vs, n, k - 1);
      DotAddScaledRight(row, Combination(cs, vs, n, k - 1), cs[k - 1], vs[k - 1], n);
    }
  }

  /** On a coordinate where only vector j is nonzero, and is one, a combination shows cs[j]. */
  lemma {:induction false} CombinationAtUnit(cs: Vec, vs: seq<Vec>, n: nat, k: nat, c: nat, j: nat)
    requires k <= |cs| && k <= |vs| && c < n && j < |cs|
    requires forall i :: 0 <= i < k ==> |vs[i]| == n && vs[i][c] == if i == j then 1.0 else 0.0
    ensures Combination(cs, vs, n, k)[c] == if j < k then cs[j] else 0.0
  {
    if k > 0 {
      CombinationAtUnit(cs, vs, n, k - 1, c, j);
    }
  }

  /** A coordinate on which every vector vanishes vanishes in the combination. */
  lemma {:induction false} CombinationAtZero(cs: Vec, vs: seq<Vec>, n: nat, k: nat, c: nat)
    requires k <= |cs| && k <= |vs| && c < n
    requires forall i :: 0 <= i < k ==> |vs[i]| == n && vs[i][c] == 0.0
    ensures Combination(cs, vs, n, k)[c] == 0.0
  {
    if k > 0 {
      CombinationAtZero(cs, vs, n, k - 1, c);
    }
  }

  /** Two coordinates in a fixed ratio in every vector keep that ratio in the combination. */
  lemma {:induction false} CombinationRatio(cs: Vec, vs: seq<Vec>, n: nat, k: nat, c: nat, d: nat, ratio: real)
    requires k <= |cs| && k <= |vs| && c < n && d < n
    requires forall i :: 0 <= i < k ==> |vs[i]| == n && vs[i][d] == ratio * vs[i][c]
    ensures Combination(cs, vs, n, k)[d] == ratio * Combination(cs, vs, n, k)[c]
  {
    if k > 0 {
      CombinationRatio(cs, vs, n, k - 1, c, d, ratio);
      var before := Combination(cs, vs, n, k - 1);
      assert ratio * (before[c] + cs[k - 1] * vs[k - 1][c]) == ratio * before[c] + cs[k - 1] * (ratio * vs[k - 1][c]);
    }
  }
}
