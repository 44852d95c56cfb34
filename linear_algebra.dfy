/** Dense real linear algebra used to state what the solver in src/main.c computes:
    n-by-n matrices as sequences of rows, dot products accumulated in increasing
    index order (the order of the source's `sum +=` loops), triangular shapes and
    LU factorisations. */
module LinearAlgebra {

  type Vector = seq<real>
  type Matrix = seq<seq<real>>

  /** M has n rows of n entries each. */
  ghost predicate IsSquare(M: Matrix, n: nat) {
    |M| == n && forall i :: 0 <= i < n ==> |M[i]| == n
  }

  /** The sum of u[j] * v[j] over lo <= j < hi, accumulated with increasing j. */
  function Dot(u: Vector, v: Vector, lo: nat, hi: nat): real
    requires lo <= hi <= |u| && hi <= |v|
    decreases hi - lo
  {
    if lo == hi then 0.0 else Dot(u, v, lo, hi - 1) + u[hi - 1] * v[hi - 1]
  }

  /** Column c of M. */
  function Column(M: Matrix, c: nat): (col: Vector)
    requires forall i :: 0 <= i < |M| ==> c < |M[i]|
    ensures |col| == |M|
    ensures forall i :: 0 <= i < |M| ==> col[i] == M[i][c]
  {
    seq(|M|, i requires 0 <= i < |M| => M[i][c])
  }

  /** The matrix-vector product M * x. */
  function MatVec(M: Matrix, x: Vector, n: nat): (y: Vector)
    requires IsSquare(M, n) && |x| == n
    ensures |y| == n
    ensures forall i :: 0 <= i < n ==> y[i] == Dot(M[i], x, 0, n)
  {
    seq(n, i requires 0 <= i < n => Dot(M[i], x, 0, n))
  }

  /** L has ones on its diagonal and zeros above it. */
  ghost predicate IsUnitLowerTriangular(L: Matrix, n: nat)
    requires IsSquare(L, n)
  {
    forall i, j :: 0 <= i < n && 0 <= j < n ==> (i == j ==> L[i][j] == 1.0) && (i < j ==> L[i][j] == 0.0)
  }

  /** U has zeros below its diagonal. */
  ghost predicate IsUpperTriangular(U: Matrix, n: nat)
    requires IsSquare(U, n)
  {
    forall i, j :: 0 <= i < n && 0 <= j < n && j < i ==> U[i][j] == 0.0
  }

  /** A == L * U, entry by entry. */
  ghost predicate IsProduct(L: Matrix, U: Matrix, A: Matrix, n: nat)
    requires IsSquare(L, n) && IsSquare(U, n) && IsSquare(A, n)
  {
    forall r, c :: 0 <= r < n && 0 <= c < n ==> Dot(L[r], Column(U, c), 0, n) == A[r][c]
  }

  /** (L, U) is a Doolittle factorisation of A: L unit lower triangular,
      U upper triangular, and L * U == A. */
  ghost predicate IsLu(L: Matrix, U: Matrix, A: Matrix, n: nat) {
    IsSquare(L, n) && IsSquare(U, n) && IsSquare(A, n) &&
    IsUnitLowerTriangular(L, n) && IsUpperTriangular(U, n) && IsProduct(L, U, A, n)
  }

  /** The first k diagonal entries (pivots) of U are nonzero. */
  ghost predicate PivotsNonzero(U: Matrix, n: nat, k: int)
    requires IsSquare(U, n)
  {
    forall i :: 0 <= i < k && i < n ==> U[i][i] != 0.0
  }

  /** A factors as L * U without pivoting and every pivot is nonzero: exactly the
      matrices on which Doolittle's method followed by the two triangular solves
      never divides by zero. */
  ghost predicate Nonsingular(A: Matrix, n: nat) {
    exists L: Matrix, U: Matrix :: IsLu(L, U, A, n) && PivotsNonzero(U, n, n)
  }

  // ---------------------------------------------------------------------------
  // Dot products

  lemma {:induction false} DotSplit(u: Vector, v: Vector, lo: nat, mid: nat, hi: nat)
    requires lo <= mid <= hi <= |u| && hi <= |v|
    ensures Dot(u, v, lo, hi) == Dot(u, v, lo, mid) + Dot(u, v, mid, hi)
    decreases hi
  {
    if hi != mid {
      DotSplit(u, v, lo, mid, hi - 1);
    }
  }

  /** One more term at the end of the range. */
  lemma DotStep(u: Vector, v: Vector, lo: nat, hi: nat)
    requires lo <= hi < |u| && hi < |v|
    ensures Dot(u, v, lo, hi + 1) == Dot(u, v, lo, hi) + u[hi] * v[hi]
  {
  }

  /** Terms that vanish beyond mid do not change the sum. */
  lemma {:induction false} DotZeroTail(u: Vector, v: Vector, lo: nat, mid: nat, hi: nat)
    requires lo <= mid <= hi <= |u| && hi <= |v|
    requires forall j :: mid <= j < hi ==> u[j] == 0.0 || v[j] == 0.0
    ensures Dot(u, v, lo, hi) == Dot(u, v, lo, mid)
    decreases hi
  {
    if hi != mid {
      DotZeroTail(u, v, lo, mid, hi - 1);
    }
  }

  /** The sum depends only on the entries it reads. */
  lemma {:induction false} DotAgree(u: Vector, v: Vector, u': Vector, v': Vector, lo: nat, hi: nat)
    requires lo <= hi <= |u| && hi <= |v| && hi <= |u'| && hi <= |v'|
    requires forall j :: lo <= j < hi ==> u[j] == u'[j] && v[j] == v'[j]
    ensures Dot(u, v, lo, hi) == Dot(u', v', lo, hi)
    decreases hi - lo
  {
    if lo != hi {
      DotAgree(u, v, u', v', lo, hi - 1);
    }
  }

  /** Peeling the first term off the range. */
  lemma {:induction false} DotFirst(u: Vector, v: Vector, lo: nat, hi: nat)
    requires lo < hi <= |u| && hi <= |v|
    ensures Dot(u, v, lo, hi) == u[lo] * v[lo] + Dot(u, v, lo + 1, hi)
    decreases hi - lo
  {
    if lo + 1 < hi {
      DotFirst(u, v, lo, hi - 1);
    }
  }

  /** Linearity in the second argument: if z == v + s * w then u.z == u.v + s * (u.w). */
  lemma {:induction false} DotLinear(u: Vector, v: Vector, w: Vector, z: Vector, s: real, lo: nat, hi: nat)
    requires lo <= hi <= |u| && hi <= |v| && hi <= |w| && hi <= |z|
    requires forall j :: lo <= j < hi ==> z[j] == v[j] + s * w[j]
    ensures Dot(u, z, lo, hi) == Dot(u, v, lo, hi) + s * Dot(u, w, lo, hi)
    decreases hi - lo
  {
    if lo != hi {
      DotLinear(u, v, w, z, s, lo, hi - 1);
      var j := hi - 1;
      assert u[j] * z[j] == u[j] * v[j] + s * (u[j] * w[j]) by {
        assert z[j] == v[j] + s * w[j];
      }
    }
  }

  /** Multiplying by the quotient undoes the division. */
  lemma TimesQuotient(p: real, q: real)
    requires p != 0.0
    ensures p * (q / p) == q
  {
  }

  // ---------------------------------------------------------------------------
  // Entries of a Doolittle factorisation

  /** If a == sum_{j<n} u[j] * v[j], sum == sum_{j<i} u[j] * v[j] and every term
      past position i vanishes, then a - sum is the i-th term alone. */
  lemma DotRemainder(u: Vector, v: Vector, i: nat, n: nat, a: real, sum: real)
    requires i < n && |u| == n && |v| == n
    requires forall j :: i + 1 <= j < n ==> u[j] == 0.0 || v[j] == 0.0
    requires a == Dot(u, v, 0, n) && sum == Dot(u, v, 0, i)
    ensures a - sum == u[i] * v[i]
  {
    DotZeroTail(u, v, 0, i + 1, n);
    DotStep(u, v, 0, i);
  }

  /** The value the source stores in U[i][k]: since L[i][i] == 1 and row i of L is
      zero past the diagonal, A[i][k] - sum_{j<i} L[i][j] * U[j][k] is U[i][k]. */
  lemma LuRowEntry(L: Matrix, U: Matrix, A: Matrix, n: nat, i: nat, k: nat, sum: real, a: real)
    requires IsLu(L, U, A, n) && i <= k < n && a == A[i][k]
    requires sum == Dot(L[i], Column(U, k), 0, i)
    ensures a - sum == U[i][k]
  {
    var row, col := L[i], Column(U, k);
    DotRemainder(row, col, i, n, a, sum);
    assert row[i] == 1.0 && col[i] == U[i][k];
  }

  /** The value the source stores in L[k][i]: since column i of U is zero below the
      diagonal and the pivot U[i][i] is nonzero,
      (A[k][i] - sum_{j<i} L[k][j] * U[j][i]) / U[i][i] is L[k][i]. */
  lemma LuColumnEntry(L: Matrix, U: Matrix, A: Matrix, n: nat, i: nat, k: nat, sum: real, a: real, pivot: real)
    requires IsLu(L, U, A, n) && i < k < n
    requires a == A[k][i] && pivot == U[i][i] && pivot != 0.0
    requires sum == Dot(L[k], Column(U, i), 0, i)
    ensures (a - sum) / pivot == L[k][i]
  {
    var row, col := L[k], Column(U, i);
    DotRemainder(row, col, i, n, a, sum);
    QuotientOfProduct(a - sum, row[i], col[i]);
  }

  lemma QuotientOfProduct(d: real, x: real, p: real)
    requires p != 0.0 && d == x * p
    ensures d / p == x
  {
  }

  // ---------------------------------------------------------------------------
  // Triangular systems

  /** If L is unit lower triangular and y[i] + sum_{j<i} L[i][j] * y[j] == b[i]
      for every i, then L * y == b. */
  lemma UnitLowerSolves(L: Matrix, y: Vector, b: Vector, n: nat)
    requires IsSquare(L, n) && IsUnitLowerTriangular(L, n) && |y| == n && |b| == n
    requires forall i {:trigger b[i]} :: 0 <= i < n ==> y[i] + Dot(L[i], y, 0, i) == b[i]
    ensures MatVec(L, y, n) == b
  {
    forall i | 0 <= i < n ensures Dot(L[i], y, 0, n) == b[i] {
      assert forall j :: i + 1 <= j < n ==> L[i][j] == 0.0;
      DotZeroTail(L[i], y, 0, i + 1, n);
      DotStep(L[i], y, 0, i);
      assert L[i][i] * y[i] == y[i] by {
        assert L[i][i] == 1.0;
      }
    }
  }

  /** One step of back substitution: setting x[i] to (b - sum_{j>i} u[j] * x[j]) / u[i]
      makes sum_{j>=i} u[j] * x[j] equal to b. */
  lemma BackSubstitutionStep(u: Vector, x: Vector, x': Vector, i: nat, n: nat, sum: real, b: real)
    requires i < n <= |u| && |x| == n && u[i] != 0.0
    requires sum == Dot(u, x, i + 1, n)
    requires x' == x[i := (b - sum) / u[i]]
    ensures Dot(u, x', i, n) == b
  {
    DotFirst(u, x', i, n);
    assert forall j :: i + 1 <= j < n ==> x'[j] == x[j];
    DotAgree(u, x', u, x, i + 1, n);
    assert x'[i] == (b - sum) / u[i];
    TimesQuotient(u[i], b - sum);
    assert u[i] * x'[i] == b - sum;
  }

  /** If U is upper triangular and sum_{j>=i} U[i][j] * x[j] == y[i] for every i,
      then U * x == y. */
  lemma UpperSolves(U: Matrix, x: Vector, y: Vector, n: nat)
    requires IsSquare(U, n) && IsUpperTriangular(U, n) && |x| == n && |y| == n
    requires forall i {:trigger y[i]} :: 0 <= i < n ==> Dot(U[i], x, i, n) == y[i]
    ensures MatVec(U, x, n) == y
  {
    forall i | 0 <= i < n ensures Dot(U[i], x, 0, n) == y[i] {
      assert forall j :: 0 <= j < i ==> U[i][j] == 0.0;
      DotZeroTail(U[i], x, 0, 0, i);
      DotSplit(U[i], x, 0, i, n);
    }
  }

  // ---------------------------------------------------------------------------
  // Associativity: (L * U) * x == L * (U * x)

  /** The vector whose j-th entry is sum_{c<m} U[j][c] * x[c]. */
  function PartialMatVec(U: Matrix, x: Vector, n: nat, m: nat): (w: Vector)
    requires IsSquare(U, n) && |x| == n && m <= n
    ensures |w| == n
    ensures forall j :: 0 <= j < n ==> w[j] == Dot(U[j], x, 0, m)
  {
    seq(n, j requires 0 <= j < n => Dot(U[j], x, 0, m))
  }

  lemma {:induction false} ProductRowTimes(L: Matrix, U: Matrix, A: Matrix, x: Vector, n: nat, r: nat, m: nat)
    requires IsSquare(L, n) && IsSquare(U, n) && IsSquare(A, n) && IsProduct(L, U, A, n)
    requires |x| == n && r < n && m <= n
    ensures Dot(A[r], x, 0, m) == Dot(L[r], PartialMatVec(U, x, n, m), 0, n)
    decreases m
  {
    var w := PartialMatVec(U, x, n, m);
    if m == 0 {
      DotZeroTail(L[r], w, 0, 0, n);
    } else {
      var w' := PartialMatVec(U, x, n, m - 1);
      ProductRowTimes(L, U, A, x, n, r, m - 1);
      var col := Column(U, m - 1);
      DotLinear(L[r], w', col, w, x[m - 1], 0, n);
      assert A[r][m - 1] == Dot(L[r], col, 0, n);
    }
  }

  /** If A == L * U then A * x == L * (U * x). */
  lemma MatVecOfProduct(L: Matrix, U: Matrix, A: Matrix, x: Vector, n: nat)
    requires IsSquare(L, n) && IsSquare(U, n) && IsSquare(A, n) && IsProduct(L, U, A, n)
    requires |x| == n
    ensures MatVec(A, x, n) == MatVec(L, MatVec(U, x, n), n)
  {
    assert PartialMatVec(U, x, n, n) == MatVec(U, x, n);
    forall r | 0 <= r < n ensures MatVec(A, x, n)[r] == MatVec(L, MatVec(U, x, n), n)[r] {
      ProductRowTimes(L, U, A, x, n, r, n);
    }
  }

  /** Solving L * y == b and then U * x == y solves A * x == b. */
  lemma SolveThroughFactors(L: Matrix, U: Matrix, A: Matrix, y: Vector, x: Vector, b: Vector, n: nat)
    requires IsLu(L, U, A, n) && |x| == n && |y| == n && |b| == n
    requires MatVec(L, y, n) == b && MatVec(U, x, n) == y
    ensures MatVec(A, x, n) == b
  {
    MatVecOfProduct(L, U, A, x, n);
  }

  // ---------------------------------------------------------------------------
  // Uniqueness of the solution

  /** The zero vector of length n. */
  function Zeros(n: nat): (z: Vector)
    ensures |z| == n && forall i :: 0 <= i < n ==> z[i] == 0.0
  {
    seq(n, _ => 0.0)
  }

  /** A * 0 == 0 */
  lemma MatVecOfZero(A: Matrix, n: nat)
    requires IsSquare(A, n)
    ensures MatVec(A, Zeros(n), n) == Zeros(n)
  {
    var zero := Zeros(n);
    forall i | 0 <= i < n ensures Dot(A[i], zero, 0, n) == 0.0 {
      DotZeroTail(A[i], zero, 0, 0, n);
    }
  }

  /** If L is unit lower triangular and L * z == 0 then the first m entries of z are zero. */
  lemma {:induction false} UnitLowerKernel(L: Matrix, z: Vector, n: nat, m: nat)
    requires IsSquare(L, n) && IsUnitLowerTriangular(L, n) && |z| == n && m <= n
    requires MatVec(L, z, n) == Zeros(n)
    ensures forall i :: 0 <= i < m ==> z[i] == 0.0
    decreases m
  {
    if m > 0 {
      var i := m - 1;
      UnitLowerKernel(L, z, n, i);
      assert Dot(L[i], z, 0, n) == 0.0 by {
        assert MatVec(L, z, n)[i] == 0.0;
      }
      DotRemainder(L[i], z, i, n, 0.0, 0.0) by {
        assert forall j :: i + 1 <= j < n ==> L[i][j] == 0.0;
        DotZeroTail(L[i], z, 0, 0, i);
      }
      assert L[i][i] == 1.0;
    }
  }

  /** If U is upper triangular with nonzero pivots and U * x == 0 then the entries of
      x from position m on are zero. */
  lemma {:induction false} UpperKernel(U: Matrix, x: Vector, n: nat, m: nat)
    requires IsSquare(U, n) && IsUpperTriangular(U, n) && PivotsNonzero(U, n, n) && |x| == n && m <= n
    requires MatVec(U, x, n) == Zeros(n)
    ensures forall i :: m <= i < n ==> x[i] == 0.0
    decreases n - m
  {
    if m < n {
      var i := m;
      UpperKernel(U, x, n, m + 1);
      assert Dot(U[i], x, 0, n) == 0.0 by {
        assert MatVec(U, x, n)[i] == 0.0;
      }
      assert forall j :: 0 <= j < i ==> U[i][j] == 0.0;
      DotZeroTail(U[i], x, 0, 0, i);
      DotSplit(U[i], x, 0, i, n);
      DotFirst(U[i], x, i, n);
      DotZeroTail(U[i], x, i + 1, i + 1, n);
      assert U[i][i] * x[i] == 0.0;
      assert U[i][i] != 0.0;
    }
  }

  /** A nonsingular A maps only the zero vector to zero. */
  lemma KernelTrivial(A: Matrix, x: Vector, n: nat)
    requires Nonsingular(A, n) && |x| == n
    requires MatVec(A, x, n) == Zeros(n)
    ensures x == Zeros(n)
  {
    var L: Matrix, U: Matrix :| IsLu(L, U, A, n) && PivotsNonzero(U, n, n);
    MatVecOfProduct(L, U, A, x, n);
    UnitLowerKernel(L, MatVec(U, x, n), n, n);
    assert MatVec(U, x, n) == Zeros(n);
    UpperKernel(U, x, n, 0);
  }

  /** A nonsingular A maps distinct vectors to distinct vectors: A * x == b has at
      most one solution. */
  lemma SolutionUnique(A: Matrix, x: Vector, x': Vector, n: nat)
    requires Nonsingular(A, n) && |x| == n && |x'| == n
    requires MatVec(A, x, n) == MatVec(A, x', n)
    ensures x == x'
  {
    var d := seq(n, j requires 0 <= j < n => x'[j] - x[j]);
    forall i | 0 <= i < n ensures MatVec(A, d, n)[i] == 0.0 {
      DotLinear(A[i], x, d, x', 1.0, 0, n);
    }
    KernelTrivial(A, d, n);
    forall j | 0 <= j < n ensures x[j] == x'[j] {
      assert d[j] == 0.0;
    }
  }
}
