/** The linear solver of src/main.c: Doolittle LU decomposition without pivoting
    (`lu_decompose`), the two triangular solves (`forward_substitution`,
    `backward_substitution`) and their composition (`solveLinearSystem`).

    The source's row-major n*n float buffers are two-dimensional arrays here
    (entry i*n+j of the buffer is [i, j]); its vectors are arrays of length n.
    Every buffer the source allocates and zero-fills is a new zero-filled array. */
module LuSolver {
  import opened LinearAlgebra

  /** The value held in a two-dimensional array, as a sequence of rows. */
  ghost function Snap(a: array2<real>): (M: Matrix)
    reads a
    ensures |M| == a.Length0
    ensures forall r :: 0 <= r < a.Length0 ==> |M[r]| == a.Length1
    ensures forall r, c :: 0 <= r < a.Length0 && 0 <= c < a.Length1 ==> M[r][c] == a[r, c]
  {
    seq(a.Length0, r requires 0 <= r < a.Length0 reads a =>
      seq(a.Length1, c requires 0 <= c < a.Length1 reads a => a[r, c]))
  }

  lemma SnapIs(a: array2<real>, M: Matrix, n: nat)
    requires a.Length0 == n && a.Length1 == n && IsSquare(M, n)
    requires forall r, c :: 0 <= r < n && 0 <= c < n ==> a[r, c] == M[r][c]
    ensures Snap(a) == M
  {
    forall r | 0 <= r < n ensures Snap(a)[r] == M[r] {
      assert forall c :: 0 <= c < n ==> Snap(a)[r][c] == M[r][c];
    }
  }

  /** The `sum` loops of lu_decompose: sum_{j<m} L[r][j] * U[j][c], accumulated
      with increasing j. */
  method RowTimesColumn(n: nat, L: array2<real>, U: array2<real>, r: nat, c: nat, m: nat) returns (sum: real)
    requires L.Length0 == n && L.Length1 == n && U.Length0 == n && U.Length1 == n
    requires r < n && c < n && m <= n
    ensures sum == Dot(Snap(L)[r], Column(Snap(U), c), 0, m)
  {
    sum := 0.0;
    for j := 0 to m
      invariant sum == Dot(Snap(L)[r], Column(Snap(U), c), 0, j)
    {
      sum := sum + L[r, j] * U[j, c];
    }
  }

  /** lu_decompose. For each i it first computes row i of U, then column i of L,
      each entry from the entries of earlier rows and columns. The ghost
      arguments (Lw, Uw) are a Doolittle factorisation of A whose pivots
      Uw[i][i], i < n - 1, are nonzero: these are exactly the divisors the source
      uses, so the requirement says that no division by zero happens. The method
      then returns precisely that factorisation. */
  method LuDecompose(n: nat, A: array2<real>, ghost Lw: Matrix, ghost Uw: Matrix)
    returns (L: array2<real>, U: array2<real>)
    requires A.Length0 == n && A.Length1 == n
    requires IsLu(Lw, Uw, Snap(A), n) && PivotsNonzero(Uw, n, n - 1)
    ensures L.Length0 == n && L.Length1 == n && U.Length0 == n && U.Length1 == n
    ensures forall r, c :: 0 <= r < n && 0 <= c < n ==> L[r, c] == Lw[r][c] && U[r, c] == Uw[r][c]
    ensures IsLu(Snap(L), Snap(U), Snap(A), n)
  {
    L := new real[n, n]((r, c) => 0.0);
    U := new real[n, n]((r, c) => 0.0);
    for i := 0 to n
      invariant forall r, c :: 0 <= r < n && 0 <= c < n ==> U[r, c] == if r < i then Uw[r][c] else 0.0
      invariant forall r, c :: 0 <= r < n && 0 <= c < n ==> L[r, c] == if c < i then Lw[r][c] else 0.0
    {
      RowOfU(n, A, L, U, i, Lw, Uw);
      ColumnOfL(n, A, L, U, i, Lw, Uw);
    }
    SnapIs(L, Lw, n);
    SnapIs(U, Uw, n);
  }

  /** The first inner loop of lu_decompose: for k >= i,
      U[i][k] = A[i][k] - sum_{j<i} L[i][j] * U[j][k]. With rows < i of U and
      columns < i of L already equal to the factorisation, row i of U becomes equal
      to it too. */
  method RowOfU(n: nat, A: array2<real>, L: array2<real>, U: array2<real>, i: nat, ghost Lw: Matrix, ghost Uw: Matrix)
    requires A.Length0 == n && A.Length1 == n && L.Length0 == n && L.Length1 == n
    requires U.Length0 == n && U.Length1 == n && U != A && U != L && i < n
    requires IsLu(Lw, Uw, Snap(A), n)
    requires forall r, c :: 0 <= r < n && 0 <= c < n ==> U[r, c] == if r < i then Uw[r][c] else 0.0
    requires forall r, c :: 0 <= r < n && 0 <= c < n ==> L[r, c] == if c < i then Lw[r][c] else 0.0
    modifies U
    ensures forall r, c :: 0 <= r < n && 0 <= c < n ==> U[r, c] == if r <= i then Uw[r][c] else 0.0
  {
    for k := i to n
      invariant forall r, c :: 0 <= r < n && 0 <= c < n ==>
        U[r, c] == if r < i || (r == i && c < k) then Uw[r][c] else 0.0
    {
      var sum := RowTimesColumn(n, L, U, i, k, i);
      DotAgree(Snap(L)[i], Column(Snap(U), k), Lw[i], Column(Uw, k), 0, i);
      var a := A[i, k];
      LuRowEntry(Lw, Uw, Snap(A), n, i, k, sum, a);
      U[i, k] := a - sum;
    }
  }

  /** The second inner loop of lu_decompose: L[i][i] = 1 and, for k > i,
      L[k][i] = (A[k][i] - sum_{j<i} L[k][j] * U[j][i]) / U[i][i]. With rows <= i
      of U and columns < i of L already equal to the factorisation, column i of L
      becomes equal to it too. */
  method ColumnOfL(n: nat, A: array2<real>, L: array2<real>, U: array2<real>, i: nat, ghost Lw: Matrix, ghost Uw: Matrix)
    requires A.Length0 == n && A.Length1 == n && L.Length0 == n && L.Length1 == n
    requires U.Length0 == n && U.Length1 == n && L != A && L != U && i < n
    requires IsLu(Lw, Uw, Snap(A), n) && PivotsNonzero(Uw, n, n - 1)
    requires forall r, c :: 0 <= r < n && 0 <= c < n ==> U[r, c] == if r <= i then Uw[r][c] else 0.0
    requires forall r, c :: 0 <= r < n && 0 <= c < n ==> L[r, c] == if c < i then Lw[r][c] else 0.0
    modifies L
    ensures forall r, c :: 0 <= r < n && 0 <= c < n ==> L[r, c] == if c <= i then Lw[r][c] else 0.0
  {
    for k := i to n
      invariant forall r, c :: 0 <= r < n && 0 <= c < n ==>
        L[r, c] == if c < i || (c == i && r < k) then Lw[r][c] else 0.0
    {
      if i == k {
        L[i, i] := 1.0;
      } else {
        var sum := RowTimesColumn(n, L, U, k, i, i);
        DotAgree(Snap(L)[k], Column(Snap(U), i), Lw[k], Column(Uw, i), 0, i);
        var a, pivot := A[k, i], U[i, i];
        LuColumnEntry(Lw, Uw, Snap(A), n, i, k, sum, a, pivot);
        L[k, i] := (a - sum) / pivot;
      }
    }
  }

  /** forward_substitution: y[i] = B[i] - sum_{j<i} L[i][j] * y[j]. The diagonal
      and the upper triangle of L are never read, so y solves (I + strictly lower
      part of L) * y == B for any L, and L * y == B when L is unit lower triangular. */
  method ForwardSubstitution(n: nat, L: array2<real>, B: array<real>) returns (y: array<real>)
    requires L.Length0 == n && L.Length1 == n && B.Length == n
    ensures y.Length == n
    ensures forall i {:trigger B[i]} :: 0 <= i < n ==> y[i] + Dot(Snap(L)[i], y[..], 0, i) == B[i]
    ensures IsUnitLowerTriangular(Snap(L), n) ==> MatVec(Snap(L), y[..], n) == B[..]
  {
    y := new real[n](_ => 0.0);
    for i := 0 to n
      invariant forall r {:trigger B[r]} :: 0 <= r < i ==> y[r] + Dot(Snap(L)[r], y[..], 0, r) == B[r]
    {
      var sum := 0.0;
      for j := 0 to i
        invariant sum == Dot(Snap(L)[i], y[..], 0, j)
      {
        sum := sum + L[i, j] * y[j];
      }
      ghost var before := y[..];
      y[i] := B[i] - sum;
      forall r | 0 <= r <= i ensures Dot(Snap(L)[r], y[..], 0, r) == Dot(Snap(L)[r], before, 0, r) {
        DotAgree(Snap(L)[r], y[..], Snap(L)[r], before, 0, r);
      }
      assert B[i] == y[i] + Dot(Snap(L)[i], y[..], 0, i);
    }
    if IsUnitLowerTriangular(Snap(L), n) {
      UnitLowerSolves(Snap(L), y[..], B[..], n);
    }
  }

  /** backward_substitution: for i from n - 1 down to 0,
      x[i] = (y[i] - sum_{j>i} U[i][j] * x[j]) / U[i][i]. The source divides by
      U[i][i] unchecked, so a nonzero diagonal is required. The lower triangle of
      U is never read, so x solves (upper triangle of U) * x == y for any U, and
      U * x == y when U is upper triangular. */
  method BackwardSubstitution(n: nat, U: array2<real>, y: array<real>) returns (x: array<real>)
    requires U.Length0 == n && U.Length1 == n && y.Length == n
    requires forall i :: 0 <= i < n ==> U[i, i] != 0.0
    ensures x.Length == n
    ensures forall i {:trigger y[i]} :: 0 <= i < n ==> Dot(Snap(U)[i], x[..], i, n) == y[i]
    ensures IsUpperTriangular(Snap(U), n) ==> MatVec(Snap(U), x[..], n) == y[..]
  {
    x := new real[n](_ => 0.0);
    for i := n downto 0
      invariant forall r {:trigger y[r]} :: i <= r < n ==> Dot(Snap(U)[r], x[..], r, n) == y[r]
    {
      var sum := 0.0;
      for j := i + 1 to n
        invariant sum == Dot(Snap(U)[i], x[..], i + 1, j)
      {
        sum := sum + U[i, j] * x[j];
      }
      ghost var before := x[..];
      x[i] := (y[i] - sum) / U[i, i];
      BackSubstitutionStep(Snap(U)[i], before, x[..], i, n, sum, y[i]);
      forall r | i < r < n ensures Dot(Snap(U)[r], x[..], r, n) == Dot(Snap(U)[r], before, r, n) {
        DotAgree(Snap(U)[r], x[..], Snap(U)[r], before, r, n);
      }
    }
    if IsUpperTriangular(Snap(U), n) {
      assert forall i {:trigger y[..][i]} :: 0 <= i < n ==> Dot(Snap(U)[i], x[..], i, n) == y[..][i];
      UpperSolves(Snap(U), x[..], y[..], n);
    }
  }

  /** solveLinearSystem: LU decomposition, then the two triangular solves, then
      a copy of x into a new result buffer. When A factors without pivoting and
      all pivots are nonzero (the source does not check this), the result solves
      A * x == B. Nothing allocated before the call is modified. */
  method SolveLinearSystem(n: nat, A: array2<real>, B: array<real>) returns (result: array<real>)
    requires A.Length0 == n && A.Length1 == n && B.Length == n
    requires Nonsingular(Snap(A), n)
    ensures result.Length == n
    ensures MatVec(Snap(A), result[..], n) == B[..]
  {
    result := new real[n];
    ghost var Lw: Matrix, Uw: Matrix :| IsLu(Lw, Uw, Snap(A), n) && PivotsNonzero(Uw, n, n);
    var L, U := LuDecompose(n, A, Lw, Uw);
    assert IsUnitLowerTriangular(Snap(L), n) && IsUpperTriangular(Snap(U), n);
    var y := ForwardSubstitution(n, L, B);
    assert MatVec(Snap(L), y[..], n) == B[..];
    var x := BackwardSubstitution(n, U, y);
    assert MatVec(Snap(U), x[..], n) == y[..];
    SolveThroughFactors(Snap(L), Snap(U), Snap(A), y[..], x[..], B[..], n);
    ghost var solution := x[..];
    assert MatVec(Snap(A), solution, n) == B[..];
    forall i | 0 <= i < n {
      result[i] := x[i];
    }
    assert result[..] == solution;
  }
}
