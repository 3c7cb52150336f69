/** Gauss-Jordan elimination over exact rationals and the nullspace basis read off it. */
module Nullspace {
  import opened Vectors

  datatype Outcome<+T> = Value(value: T) | InconsistentRows

  ghost predicate Rows(rows: seq<Vec>, n: nat)
  {
    forall r :: 0 <= r < |rows| ==> |rows[r]| == n
  }

  /** x lies in the right nullspace of the rows. */
  ghost predicate Solves(rows: seq<Vec>, x: Vec, n: nat)
    requires Rows(rows, n)
  {
    |x| == n && forall r :: 0 <= r < |rows| ==> Dot(rows[r], x, n) == 0.0
  }

  ghost predicate SameSolutions(left: seq<Vec>, right: seq<Vec>, n: nat)
    requires Rows(left, n) && Rows(right, n)
  {
    forall x: Vec :: Solves(left, x, n) <==> Solves(right, x, n)
  }

  /** The first |pivots| rows carry an identity on the pivot columns; the others vanish before column. */
  ghost predicate PivotForm(rows: seq<Vec>, pivots: seq<nat>, n: nat, column: nat)
  {
    && Rows(rows, n)
    && |pivots| <= |rows| && column <= n
    && (forall k :: 0 <= k < |pivots| ==> pivots[k] < column)
    && (forall i, j :: 0 <= i < j < |pivots| ==> pivots[i] < pivots[j])
    && (forall r, k :: 0 <= r < |rows| && 0 <= k < |pivots| ==>
                         rows[r][pivots[k]] == if r == k then 1.0 else 0.0)
    && (forall r, c :: |pivots| <= r < |rows| && 0 <= c < column ==> rows[r][c] == 0.0)
  }

  /** What exact_nullspace promises of its result: a basis indexed by the free columns. */
  ghost predicate IsNullspaceBasis(matrix: seq<Vec>, n: nat, free: seq<nat>, basis: seq<Vec>)
    requires Rows(matrix, n)
  {
    && |basis| == |free|
    && (forall i :: 0 <= i < |free| ==> free[i] < n)
    && (forall i, j :: 0 <= i < j < |free| ==> free[i] < free[j])
    && (forall i :: 0 <= i < |basis| ==> |basis[i]| == n)
    && (forall i :: 0 <= i < |basis| ==> Solves(matrix, basis[i], n))
    && (forall i, j :: 0 <= i < |basis| && 0 <= j < |free| ==>
                         basis[i][free[j]] == if i == j then 1.0 else 0.0)
    && (forall x: Vec :: Solves(matrix, x, n) ==> x == Combination(At(x, free), basis, n, |basis|))
  }

  /** The entries of x at the given positions. */
  ghost function At(x: Vec, positions: seq<nat>): (v: Vec)
    ensures |v| == |positions|
  {
    seq(|positions|, i requires 0 <= i < |positions| => if positions[i] < |x| then x[positions[i]] else 0.0)
  }

  // ----- one elimination step

  function Divided(row: Vec, divisor: real): Vec
    requires divisor != 0.0
  {
    seq(|row|, i requires 0 <= i < |row| => row[i] / divisor)
  }

  function Swapped(rows: seq<Vec>, p: nat, s: nat): seq<Vec>
    requires p < |rows| && s < |rows|
  {
    rows[p := rows[s]][s := rows[p]]
  }

  /** Row r after the pivot row, already divided, has been used to clear its column. */
  function Cleared(row: Vec, pivot: Vec, column: nat): Vec
    requires column < |row| == |pivot|
  {
    AddScaled(row, -row[column], pivot)
  }

  /** All rows after pivoting row s into place p and clearing the column. */
  function Pivoted(rows: seq<Vec>, p: nat, s: nat, column: nat, n: nat): (result: seq<Vec>)
    requires Rows(rows, n) && p < |rows| && s < |rows| && column < n
    requires rows[s][column] != 0.0
    ensures Rows(result, n) && |result| == |rows|
  {
    var swapped := Swapped(rows, p, s);
    var pivot := Divided(rows[s], rows[s][column]);
    seq(|rows|, r requires 0 <= r < |rows| =>
      if r == p then pivot else Cleared(swapped[r], pivot, column))
  }

  lemma {:induction false} DividedDot(row: Vec, divisor: real, x: Vec, n: nat)
    requires divisor != 0.0 && n <= |row| && n <= |x|
    ensures Dot(Divided(row, divisor), x, n) * divisor == Dot(row, x, n)
  {
    if n > 0 {
      DividedDot(row, divisor, x, n - 1);
      var q := row[n - 1] / divisor;
      assert q * divisor == row[n - 1];
      assert (q * x[n - 1]) * divisor == row[n - 1] * x[n - 1];
    }
  }

  /** Row operations keep the solution set. */
  lemma PivotedKeepsSolutions(rows: seq<Vec>, p: nat, s: nat, column: nat, n: nat)
    requires Rows(rows, n) && p <= s < |rows| && column < n
    requires rows[s][column] != 0.0
    ensures SameSolutions(rows, Pivoted(rows, p, s, column, n), n)
  {
    forall x: Vec | |x| == n
      ensures Solves(rows, x, n) <==> Solves(Pivoted(rows, p, s, column, n), x, n)
    {
      PivotedKeepsSolution(rows, p, s, column, n, x);
    }
  }

  /** What one row operation does to the product with a vector. */
  lemma PivotedRowDot(rows: seq<Vec>, p: nat, s: nat, column: nat, n: nat, x: Vec, r: nat)
    requires Rows(rows, n) && p <= s < |rows| && column < n && |x| == n && r < |rows|
    requires rows[s][column] != 0.0
    ensures var after := Pivoted(rows, p, s, column, n);
            var swapped := Swapped(rows, p, s);
            && Dot(after[p], x, n) * rows[s][column] == Dot(rows[s], x, n)
            && (r != p ==> Dot(after[r], x, n) == Dot(swapped[r], x, n) - swapped[r][column] * Dot(after[p], x, n))
  {
    var after := Pivoted(rows, p, s, column, n);
    var swapped := Swapped(rows, p, s);
    DividedDot(rows[s], rows[s][column], x, n);
    if r != p {
      DotAddScaledLeft(swapped[r], -swapped[r][column], after[p], x, n);
      assert after[r] == Cleared(swapped[r], after[p], column);
    }
  }

  lemma PivotedKeepsSolution(rows: seq<Vec>, p: nat, s: nat, column: nat, n: nat, x: Vec)
    requires Rows(rows, n) && p <= s < |rows| && column < n && |x| == n
    requires rows[s][column] != 0.0
    ensures Solves(rows, x, n) <==> Solves(Pivoted(rows, p, s, column, n), x, n)
  {
    var after := Pivoted(rows, p, s, column, n);
    if Solves(rows, x, n) {
      forall r | 0 <= r < |rows| ensures Dot(after[r], x, n) == 0.0 {
        PivotedRowDot(rows, p, s, column, n, x, r);
      }
    }
    if Solves(after, x, n) {
      forall r | 0 <= r < |rows| ensures Dot(rows[r], x, n) == 0.0 {
        var t := if r == p then s else r;
        PivotedRowDot(rows, p, s, column, n, x, t);
        assert Dot(after[t], x, n) == 0.0 && Dot(after[p], x, n) == 0.0;
        if r != s {
          assert Swapped(rows, p, s)[t] == rows[r];
        }
      }
    }
  }

  lemma UnitCancels(m: real, one: real)
    requires one == 1.0
    ensures m + -m * one == 0.0
  {
  }

  /** Clearing a column extends the pivot form by that column. */
  lemma PivotedExtendsForm(rows: seq<Vec>, pivots: seq<nat>, s: nat, column: nat, n: nat)
    requires PivotForm(rows, pivots, n, column) && |pivots| <= s < |rows| && column < n
    requires rows[s][column] != 0.0
    ensures PivotForm(Pivoted(rows, |pivots|, s, column, n), pivots + [column], n, column + 1)
  {
    var p := |pivots|;
    var after := Pivoted(rows, p, s, column, n);
    var swapped := Swapped(rows, p, s);
    var pivot := Divided(rows[s], rows[s][column]);
    forall c | 0 <= c < column ensures pivot[c] == 0.0 {
      assert rows[s][c] == 0.0;
    }
    var divisor := rows[s][column];
    assert pivot[column] == divisor / divisor == 1.0;
    forall r, c | 0 <= r < |rows| && r != p && 0 <= c < column ensures after[r][c] == swapped[r][c] {
    }
    forall r | 0 <= r < |rows| && r != p ensures after[r][column] == 0.0 {
      UnitCancels(swapped[r][column], pivot[column]);
      assert after[r] == Cleared(swapped[r], pivot, column);
    }
  }

  // ----- reading the basis off the pivot form

  /** The basis vector of one free column. */
  ghost predicate IsBasisVector(rows: seq<Vec>, pivots: seq<nat>, n: nat, free: nat, v: Vec)
    requires Rows(rows, n) && |pivots| <= |rows| && free < n
  {
    && |v| == n
    && (forall k :: 0 <= k < |pivots| && pivots[k] < n ==> v[pivots[k]] == -rows[k][free])
    && (forall c :: 0 <= c < n && c !in pivots ==> v[c] == if c == free then 1.0 else 0.0)
  }

  lemma BasisVectorSolves(rows: seq<Vec>, pivots: seq<nat>, n: nat, free: nat, v: Vec)
    requires PivotForm(rows, pivots, n, n) && free < n && free !in pivots
    requires IsBasisVector(rows, pivots, n, free, v)
    ensures Solves(rows, v, n)
  {
    forall r | 0 <= r < |rows| ensures Dot(rows[r], v, n) == 0.0 {
      if r < |pivots| {
        forall c | 0 <= c < n && c != free && c != pivots[r]
          ensures rows[r][c] == 0.0 || v[c] == 0.0
        {
          if c in pivots {
            var k :| 0 <= k < |pivots| && pivots[k] == c;
            assert rows[r][pivots[k]] == 0.0;
          }
        }
        DotPair(rows[r], v, n, free, pivots[r]);
        assert rows[r][pivots[r]] == 1.0;
      } else {
        DotNone(rows[r], v, n);
      }
    }
  }

  /** A solution that vanishes on every free column vanishes. */
  lemma FreeColumnsDetermine(rows: seq<Vec>, pivots: seq<nat>, n: nat, z: Vec)
    requires PivotForm(rows, pivots, n, n) && Solves(rows, z, n)
    requires forall c :: 0 <= c < n && c !in pivots ==> z[c] == 0.0
    ensures z == Zero(n)
  {
    forall c | 0 <= c < n ensures z[c] == 0.0 {
      if c in pivots {
        var k :| 0 <= k < |pivots| && pivots[k] == c;
        forall d | 0 <= d < n && d != c ensures rows[k][d] == 0.0 || z[d] == 0.0 {
          if d in pivots {
            var j :| 0 <= j < |pivots| && pivots[j] == d;
            assert rows[k][pivots[j]] == 0.0;
          }
        }
        DotSingle(rows[k], z, n, c);
        assert rows[k][pivots[k]] == 1.0;
      }
    }
  }

  /** Every solution is the combination of the basis with its own free entries. */
  lemma SolutionIsCombination(rows: seq<Vec>, pivots: seq<nat>, n: nat, free: seq<nat>, basis: seq<Vec>, x: Vec)
    requires PivotForm(rows, pivots, n, n) && Solves(rows, x, n) && |basis| == |free|
    requires forall c :: 0 <= c < n ==> (c in free <==> c !in pivots)
    requires forall i :: 0 <= i < |free| ==> free[i] < n && |basis[i]| == n && Solves(rows, basis[i], n)
    requires forall i, j :: 0 <= i < |basis| && 0 <= j < |free| ==>
                              basis[i][free[j]] == if i == j then 1.0 else 0.0
    ensures x == Combination(At(x, free), basis, n, |basis|)
  {
    var cs := At(x, free);
    var y := Combination(cs, basis, n, |basis|);
    var z := AddScaled(x, -1.0, y);
    forall r | 0 <= r < |rows| ensures Dot(rows[r], z, n) == 0.0 {
      CombinationOrthogonal(rows[r], cs, basis, n, |basis|);
      DotAddScaledRight(rows[r], x, -1.0, y, n);
    }
    forall c | 0 <= c < n && c !in pivots ensures z[c] == 0.0 {
      var j :| 0 <= j < |free| && free[j] == c;
      CombinationAtUnit(cs, basis, n, |basis|, c, j);
      assert z[c] == x[c] - y[c];
    }
    FreeColumnsDetermine(rows, pivots, n, z);
    forall c | 0 <= c < n ensures x[c] == y[c] {
      assert z[c] == x[c] + -1.0 * y[c];
      assert z[c] == Zero(n)[c];
    }
  }

  /** The vectors are linearly independent, so the coefficients of a solution are unique. */
  lemma BasisIsIndependent(matrix: seq<Vec>, n: nat, free: seq<nat>, basis: seq<Vec>, cs: Vec, ds: Vec)
    requires Rows(matrix, n) && IsNullspaceBasis(matrix, n, free, basis)
    requires |cs| == |ds| == |basis|
    requires Combination(cs, basis, n, |basis|) == Combination(ds, basis, n, |basis|)
    ensures cs == ds
  {
    forall j | 0 <= j < |basis| ensures cs[j] == ds[j] {
      CombinationAtUnit(cs, basis, n, |basis|, free[j], j);
      CombinationAtUnit(ds, basis, n, |basis|, free[j], j);
    }
  }

  /** The nullspace is exactly the set of combinations of the basis. */
  lemma NullspaceIsSpan(matrix: seq<Vec>, n: nat, free: seq<nat>, basis: seq<Vec>, x: Vec)
    requires Rows(matrix, n) && IsNullspaceBasis(matrix, n, free, basis)
    ensures Solves(matrix, x, n) <==>
            exists cs: Vec :: |cs| == |basis| && x == Combination(cs, basis, n, |basis|)
  {
    if cs: Vec :| |cs| == |basis| && x == Combination(cs, basis, n, |basis|) {
      forall r | 0 <= r < |matrix| ensures Dot(matrix[r], x, n) == 0.0 {
        CombinationOrthogonal(matrix[r], cs, basis, n, |basis|);
      }
    }
    if Solves(matrix, x, n) {
      assert |At(x, free)| == |basis| && x == Combination(At(x, free), basis, n, |basis|);
    }
  }

  // ----- the algorithm

  /** Brings row s to place p, divides it, and clears the column in every other row. */
  method ClearColumn(reduced: array<Vec>, p: nat, s: nat, column: nat, n: nat)
    requires Rows(reduced[..], n) && p <= s < reduced.Length && column < n
    requires reduced[s][column] != 0.0
    modifies reduced
    ensures reduced[..] == Pivoted(old(reduced[..]), p, s, column, n)
  {
    ghost var before := reduced[..];
    reduced[p], reduced[s] := reduced[s], reduced[p];
    ghost var swapped := Swapped(before, p, s);
    assert reduced[..] == swapped;
    var divisor := reduced[p][column];
    reduced[p] := Divided(reduced[p], divisor);
    ghost var pivot := reduced[p];
    for row := 0 to reduced.Length
      invariant reduced[p] == pivot
      invariant forall r :: 0 <= r < row && r != p ==> reduced[r] == Cleared(swapped[r], pivot, column)
      invariant forall r :: row <= r < reduced.Length && r != p ==> reduced[r] == swapped[r]
    {
      if row == p || reduced[row][column] == 0.0 {
        if row != p {
          assert reduced[row] == Cleared(reduced[row], pivot, column);
        }
        continue;
      }
      var multiplier := reduced[row][column];
      reduced[row] := AddScaled(reduced[row], -multiplier, reduced[p]);
    }
    assert reduced[..] == Pivoted(before, p, s, column, n);
  }

  /** The first row at or below start with a nonzero entry in the column. */
  method SelectRow(reduced: array<Vec>, start: nat, column: nat, n: nat) returns (selected: nat)
    requires Rows(reduced[..], n) && start <= reduced.Length && column < n
    ensures start <= selected <= reduced.Length
    ensures selected < reduced.Length ==> reduced[selected][column] != 0.0
    ensures forall r :: start <= r < selected ==> reduced[r][column] == 0.0
  {
    selected := start;
    while selected < reduced.Length && reduced[selected][column] == 0.0
      invariant start <= selected <= reduced.Length
      invariant forall r :: start <= r < selected ==> reduced[r][column] == 0.0
    {
      selected := selected + 1;
    }
  }

  method ReduceRows(reduced: array<Vec>, n: nat) returns (pivots: seq<nat>)
    requires Rows(reduced[..], n) && reduced.Length > 0
    modifies reduced
    ensures Rows(reduced[..], n) && PivotForm(reduced[..], pivots, n, n)
    ensures SameSolutions(old(reduced[..]), reduced[..], n)
  {
    pivots := [];
    var column := 0;
    while column < n
      invariant 0 <= column <= n
      invariant Rows(reduced[..], n) && PivotForm(reduced[..], pivots, n, column)
      invariant SameSolutions(old(reduced[..]), reduced[..], n)
    {
      var selected := SelectRow(reduced, |pivots|, column, n);
      if selected == reduced.Length {
        column := column + 1;
        continue;
      }
      PivotedKeepsSolutions(reduced[..], |pivots|, selected, column, n);
      PivotedExtendsForm(reduced[..], pivots, selected, column, n);
      ClearColumn(reduced, |pivots|, selected, column, n);
      pivots := pivots + [column];
      column := column + 1;
      if |pivots| == reduced.Length {
        break;
      }
    }
  }

  method BasisVector(reduced: array<Vec>, pivots: seq<nat>, n: nat, free: nat) returns (v: Vec)
    requires PivotForm(reduced[..], pivots, n, n) && free < n && free !in pivots
    ensures IsBasisVector(reduced[..], pivots, n, free, v)
  {
    v := Zero(n)[free := 1.0];
    for row := 0 to |pivots|
      invariant |v| == n
      invariant forall k :: 0 <= k < row ==> v[pivots[k]] == -reduced[k][free]
      invariant forall c :: 0 <= c < n && c !in pivots[..row] ==> v[c] == if c == free then 1.0 else 0.0
    {
      v := v[pivots[row] := -reduced[row][free]];
      assert pivots[..row + 1] == pivots[..row] + [pivots[row]];
    }
    assert pivots[..|pivots|] == pivots;
  }

  /** One vector for every column without pivot, in increasing order. */
  ghost predicate AreBasisVectors(rows: seq<Vec>, pivots: seq<nat>, n: nat, column: nat, free: seq<nat>, basis: seq<Vec>)
    requires PivotForm(rows, pivots, n, n)
  {
    && |basis| == |free|
    && (forall i :: 0 <= i < |free| ==> free[i] < column <= n && free[i] !in pivots)
    && (forall i :: 0 <= i < |free| ==> IsBasisVector(rows, pivots, n, free[i], basis[i]))
    && (forall i, j :: 0 <= i < j < |free| ==> free[i] < free[j])
    && forall c :: 0 <= c < column && c !in pivots ==> c in free
  }

  method CollectBasis(reduced: array<Vec>, pivots: seq<nat>, n: nat) returns (basis: seq<Vec>, ghost free: seq<nat>)
    requires PivotForm(reduced[..], pivots, n, n)
    ensures AreBasisVectors(reduced[..], pivots, n, n, free, basis)
  {
    basis, free := [], [];
    for column := 0 to n
      invariant AreBasisVectors(reduced[..], pivots, n, column, free, basis)
    {
      if column !in pivots {
        var v := BasisVector(reduced, pivots, n, column);
        basis := basis + [v];
        free := free + [column];
      }
    }
  }

  /** exact_nullspace: for at least one row, a basis of the right nullspace; no rows give no vectors. */
  method ExactNullspace(matrix: seq<Vec>) returns (r: Outcome<seq<Vec>>, ghost free: seq<nat>)
    ensures matrix == [] ==> r == Value([])
    ensures r.InconsistentRows? <==> matrix != [] && !Rows(matrix, |matrix[0]|)
    ensures matrix != [] && r.Value? ==>
              Rows(matrix, |matrix[0]|) && IsNullspaceBasis(matrix, |matrix[0]|, free, r.value)
  {
    free := [];
    if matrix == [] {
      return Value([]), free;
    }
    var n := |matrix[0]|;
    if exists i :: 0 <= i < |matrix| && |matrix[i]| != n {
      return InconsistentRows, free;
    }
    var reduced := new Vec[|matrix|](i requires 0 <= i < |matrix| => matrix[i]);
    assert reduced[..] == matrix;
    var pivots := ReduceRows(reduced, n);
    ghost var rows := reduced[..];
    var basis;
    basis, free := CollectBasis(reduced, pivots, n);
    forall i | 0 <= i < |free| ensures Solves(rows, basis[i], n) {
      BasisVectorSolves(rows, pivots, n, free[i], basis[i]);
    }
    forall x: Vec | Solves(matrix, x, n)
      ensures x == Combination(At(x, free), basis, n, |basis|)
    {
      SolutionIsCombination(rows, pivots, n, free, basis, x);
    }
    r := Value(basis);
  }
}
