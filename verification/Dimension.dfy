/** The size of a nullspace basis does not depend on the basis, so the reported dimension belongs to the network. */
module Dimension {
  import opened Vectors
  import opened Nullspace
  import opened Ids
  import FluxCoupling

  // ----- more unknowns than equations

  /** Elimination up to a column, as a statement: rows in pivot form with the same solutions. */
  lemma PivotFormExists(rows: seq<Vec>, n: nat, column: nat) returns (reduced: seq<Vec>, pivots: seq<nat>)
    requires Rows(rows, n) && column <= n
    ensures PivotForm(reduced, pivots, n, column) && SameSolutions(rows, reduced, n) && |reduced| == |rows|
  {
    if column == 0 {
      reduced, pivots := rows, [];
    } else {
      var before;
      before, pivots := PivotFormExists(rows, n, column - 1);
      if s: nat :| |pivots| <= s < |before| && before[s][column - 1] != 0.0 {
        PivotedKeepsSolutions(before, |pivots|, s, column - 1, n);
        PivotedExtendsForm(before, pivots, s, column - 1, n);
        reduced, pivots := Pivoted(before, |pivots|, s, column - 1, n), pivots + [column - 1];
      } else {
        reduced := before;
      }
    }
  }

  lemma {:induction false} FreeColumnExists(pivots: seq<nat>, n: nat) returns (free: nat)
    requires |pivots| < n && forall i, j :: 0 <= i < j < |pivots| ==> pivots[i] < pivots[j]
    ensures free < n && free !in pivots
  {
    if pivots == [] || pivots[|pivots| - 1] < n - 1 {
      free := n - 1;
    } else {
      free := FreeColumnExists(pivots[..|pivots| - 1], n - 1);
    }
  }

  ghost function EntryAt(rows: seq<Vec>, pivots: seq<nat>, free: nat, c: nat): real
    requires |pivots| <= |rows| && forall r :: 0 <= r < |rows| ==> free < |rows[r]|
  {
    if c in pivots then
      var k :| 0 <= k < |pivots| && pivots[k] == c; -rows[k][free]
    else if c == free then 1.0 else 0.0
  }

  /** A homogeneous system with fewer rows than unknowns has a solution other than zero. */
  lemma NonzeroSolution(rows: seq<Vec>, n: nat) returns (x: Vec, at: nat)
    requires Rows(rows, n) && |rows| < n
    ensures Solves(rows, x, n) && at < n && x[at] != 0.0
  {
    var reduced, pivots := PivotFormExists(rows, n, n);
    at := FreeColumnExists(pivots, n);
    x := seq(n, c requires 0 <= c < n => EntryAt(reduced, pivots, at, c));
    assert IsBasisVector(reduced, pivots, n, at, x);
    BasisVectorSolves(reduced, pivots, n, at, x);
  }

  // ----- combinations of combinations

  ghost predicate Adds(after: real, before: real, factor: real, step: real)
  {
    after == before + factor * step
  }

  lemma CombinationStep(cs: Vec, vs: seq<Vec>, n: nat, k: nat, c: nat)
    requires 0 < k <= |cs| && k <= |vs| && Rows(vs, n) && c < n
    ensures Adds(Combination(cs, vs, n, k)[c], Combination(cs, vs, n, k - 1)[c], cs[k - 1], vs[k - 1][c])
  {
  }

  lemma AddScaledAt(base: Vec, factor: real, step: Vec, i: nat)
    requires i < |base| == |step|
    ensures Adds(AddScaled(base, factor, step)[i], base[i], factor, step[i])
  {
  }

  /** Adding multiples of the same entry on both sides keeps the linear relation. */
  lemma AddsAgain(m: real, p: real, q: real, f: real, d: real, b: real, s: real, v: real, m': real, p': real, q': real)
    requires Adds(m, p, f, q) && Adds(d, b, f, s)
    requires Adds(m', m, d, v) && Adds(p', p, b, v) && Adds(q', q, s, v)
    ensures Adds(m', p', f, q')
  {
    assert (b + f * s) * v == b * v + f * (s * v);
  }

  lemma {:induction false} CombinationIsLinearAt(base: Vec, factor: real, step: Vec, vs: seq<Vec>, n: nat, k: nat, c: nat)
    requires k <= |base| == |step| && k <= |vs| && Rows(vs, n) && c < n
    ensures Adds(Combination(AddScaled(base, factor, step), vs, n, k)[c], Combination(base, vs, n, k)[c], factor,
                 Combination(step, vs, n, k)[c])
  {
    if k > 0 {
      var mixed := AddScaled(base, factor, step);
      CombinationIsLinearAt(base, factor, step, vs, n, k - 1, c);
      AddScaledAt(base, factor, step, k - 1);
      CombinationStep(mixed, vs, n, k, c);
      CombinationStep(base, vs, n, k, c);
      CombinationStep(step, vs, n, k, c);
      AddsAgain(Combination(mixed, vs, n, k - 1)[c], Combination(base, vs, n, k - 1)[c], Combination(step, vs, n, k - 1)[c],
                factor, mixed[k - 1], base[k - 1], step[k - 1], vs[k - 1][c], Combination(mixed, vs, n, k)[c],
                Combination(base, vs, n, k)[c], Combination(step, vs, n, k)[c]);
    }
  }

  lemma LinearEverywhere(mixed: Vec, base: Vec, factor: real, step: Vec)
    requires |mixed| == |base| == |step| && forall c :: 0 <= c < |mixed| ==> Adds(mixed[c], base[c], factor, step[c])
    ensures mixed == AddScaled(base, factor, step)
  {
    forall c | 0 <= c < |mixed| ensures mixed[c] == AddScaled(base, factor, step)[c] {
      assert Adds(mixed[c], base[c], factor, step[c]);
    }
  }

  lemma CombinationIsLinear(base: Vec, factor: real, step: Vec, vs: seq<Vec>, n: nat, k: nat)
    requires k <= |base| == |step| && k <= |vs| && Rows(vs, n)
    ensures Combination(AddScaled(base, factor, step), vs, n, k) ==
            AddScaled(Combination(base, vs, n, k), factor, Combination(step, vs, n, k))
  {
    var mixed, b, s := Combination(AddScaled(base, factor, step), vs, n, k), Combination(base, vs, n, k),
                       Combination(step, vs, n, k);
    forall c | 0 <= c < n ensures Adds(mixed[c], b[c], factor, s[c]) {
      CombinationIsLinearAt(base, factor, step, vs, n, k, c);
    }
    LinearEverywhere(mixed, b, factor, s);
  }

  lemma {:induction false} CombinationOfZero(vs: seq<Vec>, n: nat, k: nat, m: nat)
    requires k <= m && k <= |vs| && Rows(vs, n)
    ensures Combination(Zero(m), vs, n, k) == Zero(n)
  {
    if k > 0 {
      CombinationOfZero(vs, n, k - 1, m);
    }
  }

  /** Each w is the combination of the vs with its coefficients. */
  ghost predicate Expressed(ws: seq<Vec>, coefficients: seq<Vec>, vs: seq<Vec>, n: nat)
    requires Rows(vs, n)
  {
    && |coefficients| == |ws| && Rows(coefficients, |vs|)
    && forall j :: 0 <= j < |ws| ==> ws[j] == Combination(coefficients[j], vs, n, |vs|)
  }

  lemma {:induction false} CombinationsCompose(cs: Vec, ws: seq<Vec>, coefficients: seq<Vec>, vs: seq<Vec>, n: nat, m: nat)
    requires Rows(vs, n) && Rows(ws, n) && Expressed(ws, coefficients, vs, n) && m <= |ws| && m <= |cs|
    ensures Combination(cs, ws, n, m) == Combination(Combination(cs, coefficients, |vs|, m), vs, n, |vs|)
  {
    if m == 0 {
      CombinationOfZero(vs, n, |vs|, |vs|);
    } else {
      CombinationsCompose(cs, ws, coefficients, vs, n, m - 1);
      CombinationIsLinear(Combination(cs, coefficients, |vs|, m - 1), cs[m - 1], coefficients[m - 1], vs, n, |vs|);
    }
  }

  ghost function Row(vectors: seq<Vec>, i: nat): (row: Vec)
    ensures |row| == |vectors|
  {
    seq(|vectors|, j requires 0 <= j < |vectors| => if i < |vectors[j]| then vectors[j][i] else 0.0)
  }

  lemma {:induction false} CombinationByRows(cs: Vec, vectors: seq<Vec>, k: nat, m: nat, i: nat)
    requires Rows(vectors, k) && i < k && m <= |vectors| && m <= |cs|
    ensures Combination(cs, vectors, k, m)[i] == Dot(Row(vectors, i), cs, m)
  {
    if m > 0 {
      CombinationByRows(cs, vectors, k, m - 1, i);
    }
  }

  // ----- independent and generating vectors

  /** Only zero coefficients give the zero vector. */
  ghost predicate Independent(vs: seq<Vec>, n: nat)
    requires Rows(vs, n)
  {
    forall cs: Vec :: |cs| == |vs| && Combination(cs, vs, n, |vs|) == Zero(n) ==> cs == Zero(|vs|)
  }

  ghost predicate IsCombination(x: Vec, vs: seq<Vec>, n: nat)
    requires Rows(vs, n)
  {
    exists cs: Vec :: |cs| == |vs| && x == Combination(cs, vs, n, |vs|)
  }

  /** Independent solutions that generate every solution. */
  ghost predicate Basis(matrix: seq<Vec>, vs: seq<Vec>, n: nat)
    requires Rows(matrix, n)
  {
    && Rows(vs, n) && Independent(vs, n)
    && forall x: Vec :: Solves(matrix, x, n) <==> IsCombination(x, vs, n)
  }

  lemma Coefficients(ws: seq<Vec>, vs: seq<Vec>, n: nat) returns (coefficients: seq<Vec>)
    requires Rows(vs, n) && forall j :: 0 <= j < |ws| ==> IsCombination(ws[j], vs, n)
    ensures Expressed(ws, coefficients, vs, n)
  {
    coefficients := [];
    for j := 0 to |ws|
      invariant Expressed(ws[..j], coefficients, vs, n)
    {
      assert IsCombination(ws[j], vs, n);
      var cs: Vec :| |cs| == |vs| && ws[j] == Combination(cs, vs, n, |vs|);
      coefficients := coefficients + [cs];
    }
    assert ws[..|ws|] == ws;
  }

  /** More vectors than those they are combinations of are dependent. */
  lemma MoreAreDependent(ws: seq<Vec>, vs: seq<Vec>, n: nat)
    requires Rows(ws, n) && Rows(vs, n) && |ws| > |vs|
    requires forall j :: 0 <= j < |ws| ==> IsCombination(ws[j], vs, n)
    ensures !Independent(ws, n)
  {
    var k, m := |vs|, |ws|;
    var coefficients := Coefficients(ws, vs, n);
    var rows := seq(k, i requires 0 <= i < k => Row(coefficients, i));
    var cs, at := NonzeroSolution(rows, m);
    var inner := Combination(cs, coefficients, k, m);
    forall i | 0 <= i < k ensures inner[i] == 0.0 {
      CombinationByRows(cs, coefficients, k, m, i);
      assert Dot(rows[i], cs, m) == 0.0;
    }
    assert inner == Zero(k);
    CombinationsCompose(cs, ws, coefficients, vs, n, m);
    CombinationOfZero(vs, n, k, k);
    assert cs[at] != Zero(m)[at];
  }

  lemma {:induction false} UnitCombination(vs: seq<Vec>, n: nat, k: nat, i: nat)
    requires Rows(vs, n) && i < |vs| && k <= |vs|
    ensures Combination(Zero(|vs|)[i := 1.0], vs, n, k) == if i < k then vs[i] else Zero(n)
  {
    if k > 0 {
      UnitCombination(vs, n, k - 1, i);
    }
  }

  lemma BasisVectorsSolve(matrix: seq<Vec>, vs: seq<Vec>, n: nat, i: nat)
    requires Rows(matrix, n) && Basis(matrix, vs, n) && i < |vs|
    ensures Solves(matrix, vs[i], n)
  {
    UnitCombination(vs, n, |vs|, i);
    assert IsCombination(vs[i], vs, n);
  }

  /** Independent solutions are at most as many as a basis has vectors. */
  lemma IndependentSolutions(matrix: seq<Vec>, vs: seq<Vec>, ws: seq<Vec>, n: nat)
    requires Rows(matrix, n) && Basis(matrix, vs, n) && Rows(ws, n) && Independent(ws, n)
    requires forall j :: 0 <= j < |ws| ==> Solves(matrix, ws[j], n)
    ensures |ws| <= |vs|
  {
    if |ws| > |vs| {
      MoreAreDependent(ws, vs, n);
    }
  }

  /** Any two bases of the same nullspace have the same size. */
  lemma BasesHaveOneSize(matrix: seq<Vec>, vs: seq<Vec>, ws: seq<Vec>, n: nat)
    requires Rows(matrix, n) && Basis(matrix, vs, n) && Basis(matrix, ws, n)
    ensures |vs| == |ws|
  {
    forall i | 0 <= i < |vs| ensures Solves(matrix, vs[i], n) {
      BasisVectorsSolve(matrix, vs, n, i);
    }
    forall i | 0 <= i < |ws| ensures Solves(matrix, ws[i], n) {
      BasisVectorsSolve(matrix, ws, n, i);
    }
    IndependentSolutions(matrix, vs, ws, n);
    IndependentSolutions(matrix, ws, vs, n);
  }

  /** What exact_nullspace returns is a basis in this sense. */
  lemma NullspaceBasisIsBasis(matrix: seq<Vec>, n: nat, free: seq<nat>, basis: seq<Vec>)
    requires Rows(matrix, n) && IsNullspaceBasis(matrix, n, free, basis)
    ensures Basis(matrix, basis, n)
  {
    forall cs: Vec | |cs| == |basis| && Combination(cs, basis, n, |basis|) == Zero(n) ensures cs == Zero(|basis|) {
      CombinationOfZero(basis, n, |basis|, |basis|);
      BasisIsIndependent(matrix, n, free, basis, cs, Zero(|basis|));
    }
    forall x: Vec ensures Solves(matrix, x, n) <==> IsCombination(x, basis, n) {
      NullspaceIsSpan(matrix, n, free, basis, x);
    }
  }

  // ----- the reported dimension

  /** Independent flux vectors that keep every coordinate in balance. */
  ghost predicate BalancedIndependent(ts: FluxCoupling.Transformations, coordinates: seq<Id>, ws: seq<Vec>)
  {
    Rows(ws, |ts|) && Independent(ws, |ts|) && forall j :: 0 <= j < |ws| ==> FluxCoupling.Balanced(ts, coordinates, ws[j])
  }

  lemma BalancedIndependentAreFew(ts: FluxCoupling.Transformations, coordinates: seq<Id>, basis: seq<Vec>, free: seq<nat>,
                                  ws: seq<Vec>)
    requires FluxCoupling.IsBasis(ts, coordinates, basis, free) && BalancedIndependent(ts, coordinates, ws)
    ensures |ws| <= |basis|
  {
    var matrix := FluxCoupling.FlowMatrix(ts, coordinates);
    NullspaceBasisIsBasis(matrix, |ts|, free, basis);
    forall j | 0 <= j < |ws| ensures Solves(matrix, ws[j], |ts|) {
      FluxCoupling.BalancedIsSolution(ts, coordinates, ws[j]);
    }
    IndependentSolutions(matrix, basis, ws, |ts|);
  }

  lemma BasisIsBalancedIndependent(ts: FluxCoupling.Transformations, coordinates: seq<Id>, basis: seq<Vec>, free: seq<nat>)
    requires FluxCoupling.IsBasis(ts, coordinates, basis, free)
    ensures BalancedIndependent(ts, coordinates, basis)
  {
    NullspaceBasisIsBasis(FluxCoupling.FlowMatrix(ts, coordinates), |ts|, free, basis);
    FluxCoupling.BasisIsBalanced(ts, coordinates, basis, free);
  }

  /** The reported dimension is the greatest number of independent balanced flux vectors. */
  lemma DimensionIsGreatest(ts: FluxCoupling.Transformations, coordinates: seq<Id>, report: FluxCoupling.Report)
    requires FluxCoupling.IsCouplingReport(ts, coordinates, report)
    ensures forall ws :: BalancedIndependent(ts, coordinates, ws) ==> |ws| <= report.dimension
    ensures exists ws :: BalancedIndependent(ts, coordinates, ws) && |ws| == report.dimension
  {
    var basis, free :| FluxCoupling.IsBasis(ts, coordinates, basis, free) && |basis| == report.dimension;
    forall ws | BalancedIndependent(ts, coordinates, ws) ensures |ws| <= report.dimension {
      BalancedIndependentAreFew(ts, coordinates, basis, free, ws);
    }
    BasisIsBalancedIndependent(ts, coordinates, basis, free);
  }
}
