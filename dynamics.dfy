/** The equations of motion of the chain: n bobs of unit mass hang one below the
    other on n massless rods of unit length, joint i at angle thetas[i] turning at
    omegas[i]. The angular accelerations alphas satisfy A(thetas) * alphas ==
    B(thetas, omegas), where `createMatrixA` builds A and `createVectorB` builds B. */
module Dynamics {
  import opened LinearAlgebra
  import opened Trigonometry
  import opened LuSolver

  /** GRAVITY: the signed gravitational constant of the simulation. */
  const Gravity: real := -9.81

  /** n - max(i, j): the number of bobs that hang below both joint i and joint j. */
  function Weight(n: nat, i: nat, j: nat): (w: real)
    requires i < n && j < n
    ensures 1.0 <= w <= n as real
  {
    (n - (if i < j then j else i)) as real
  }

  /** The coefficient matrix: A[i][j] == (n - max(i, j)) * cos(thetas[i] - thetas[j]). */
  function MatrixA(n: nat, thetas: Vector, trig: Trig): (A: Matrix)
    requires |thetas| == n
    ensures IsSquare(A, n)
  {
    seq(n, i requires 0 <= i < n =>
      seq(n, j requires 0 <= j < n => Weight(n, i, j) * trig.cos(thetas[i] - thetas[j])))
  }

  /** (n - max(i, j)) * omegas[j]^2 * sin(thetas[i] - thetas[j]): the centripetal
      term that joint j contributes to row i. */
  function VelocityTerm(n: nat, thetas: Vector, omegas: Vector, trig: Trig, i: nat, j: nat): real
    requires |thetas| == n && |omegas| == n && i < n && j < n
  {
    Weight(n, i, j) * omegas[j] * omegas[j] * trig.sin(thetas[i] - thetas[j])
  }

  /** The first m centripetal terms of row i, summed. */
  function VelocitySum(n: nat, thetas: Vector, omegas: Vector, trig: Trig, i: nat, m: nat): real
    requires |thetas| == n && |omegas| == n && i < n && m <= n
  {
    if m == 0 then 0.0
    else
      VelocitySum(n, thetas, omegas, trig, i, m - 1) + VelocityTerm(n, thetas, omegas, trig, i, m - 1)
  }

  /** The forcing vector: B[i] == -sum_j (n - max(i, j)) * omegas[j]^2 * sin(thetas[i] - thetas[j])
      - (n - i) * GRAVITY * sin(thetas[i]). */
  function VectorB(n: nat, thetas: Vector, omegas: Vector, trig: Trig): (B: Vector)
    requires |thetas| == n && |omegas| == n
    ensures |B| == n
  {
    seq(n, i requires 0 <= i < n =>
      -VelocitySum(n, thetas, omegas, trig, i, n) - (n - i) as real * Gravity * trig.sin(thetas[i]))
  }

  /** alphas are angular accelerations of the chain in state (thetas, omegas). */
  ghost predicate Accelerates(n: nat, trig: Trig, thetas: Vector, omegas: Vector, alphas: Vector) {
    |thetas| == n && |omegas| == n && |alphas| == n &&
    MatVec(MatrixA(n, thetas, trig), alphas, n) == VectorB(n, thetas, omegas, trig)
  }

  // ---------------------------------------------------------------------------
  // The two builders

  /** createMatrixA: fills a new n x n matrix entry by entry, row by row. */
  method CreateMatrixA(n: nat, thetas: array<real>, trig: Trig) returns (A: array2<real>)
    requires thetas.Length == n
    ensures A.Length0 == n && A.Length1 == n
    ensures Snap(A) == MatrixA(n, thetas[..], trig)
  {
    ghost var spec := MatrixA(n, thetas[..], trig);
    A := new real[n, n];
    for i := 0 to n
      invariant forall r, c :: 0 <= r < i && 0 <= c < n ==> A[r, c] == spec[r][c]
    {
      for j := 0 to n
        invariant forall r, c :: 0 <= r < i && 0 <= c < n ==> A[r, c] == spec[r][c]
        invariant forall c :: 0 <= c < j ==> A[i, c] == spec[i][c]
      {
        var value := Weight(n, i, j) * trig.cos(thetas[i] - thetas[j]);
        A[i, j] := value;
      }
    }
    SnapIs(A, spec, n);
  }

  /** createVectorB: for each row an accumulator starts at 0, has every centripetal
      term subtracted from it in turn, then the gravity term. */
  method CreateVectorB(n: nat, thetas: array<real>, omegas: array<real>, trig: Trig) returns (B: array<real>)
    requires thetas.Length == n && omegas.Length == n
    ensures B[..] == VectorB(n, thetas[..], omegas[..], trig)
  {
    ghost var spec := VectorB(n, thetas[..], omegas[..], trig);
    B := new real[n];
    for i := 0 to n
      invariant forall r :: 0 <= r < i ==> B[r] == spec[r]
    {
      var b := 0.0;
      for j := 0 to n
        invariant b == -VelocitySum(n, thetas[..], omegas[..], trig, i, j)
      {
        b := b - VelocityTerm(n, thetas[..], omegas[..], trig, i, j);
      }
      b := b - (n - i) as real * Gravity * trig.sin(thetas[i]);
      B[i] := b;
    }
  }

  // ---------------------------------------------------------------------------
  // Properties of the equations of motion

  /** A is symmetric, since max and cos are even in the two angles. */
  lemma MatrixASymmetric(n: nat, thetas: Vector, trig: Trig)
    requires |thetas| == n && CosIsEven(trig)
    ensures forall i, j :: 0 <= i < n && 0 <= j < n ==>
      MatrixA(n, thetas, trig)[i][j] == MatrixA(n, thetas, trig)[j][i]
  {
    var A := MatrixA(n, thetas, trig);
    forall i, j | 0 <= i < n && 0 <= j < n ensures A[i][j] == A[j][i] {
      assert thetas[i] - thetas[j] == -(thetas[j] - thetas[i]);
      assert trig.cos(thetas[i] - thetas[j]) == trig.cos(thetas[j] - thetas[i]);
    }
  }

  /** The diagonal of A is n - i: each joint carries the bobs below it. */
  lemma MatrixADiagonal(n: nat, thetas: Vector, trig: Trig)
    requires |thetas| == n && CosOfZero(trig)
    ensures forall i :: 0 <= i < n ==> MatrixA(n, thetas, trig)[i][i] == (n - i) as real
  {
    forall i | 0 <= i < n ensures MatrixA(n, thetas, trig)[i][i] == (n - i) as real {
      assert thetas[i] - thetas[i] == 0.0;
    }
  }

  // ---------------------------------------------------------------------------
  // The straight chain's matrix is nonsingular

  /** p / q, characterised by f * q == p alone, so that the proofs about the
      factors below never reason about division. */
  ghost function Ratio(p: nat, q: nat): (f: real)
    requires q > 0
    ensures f * q as real == p as real
  {
    assert IsRatio(p as real / q as real, p, q);
    var f :| IsRatio(f, p, q); f
  }

  ghost predicate IsRatio(f: real, p: nat, q: nat) {
    f * q as real == p as real
  }

  lemma RatioOfSelf(p: nat)
    requires p > 0
    ensures Ratio(p, p) == 1.0
  {
    CancelFactor(Ratio(p, p), p as real, p as real, 1.0);
  }

  lemma RatioNonzero(p: nat, q: nat)
    requires p > 0 && q > 0
    ensures Ratio(p, q) != 0.0
  {
  }

  /** The unit lower factor of A when every angle is zero: (n - r) / (n - i) below
      the diagonal. */
  ghost function StraightLower(n: nat): (L: Matrix)
    ensures IsSquare(L, n) && IsUnitLowerTriangular(L, n)
  {
    seq(n, r requires 0 <= r < n => seq(n, i requires 0 <= i < n =>
      if r < i then 0.0 else if r == i then 1.0 else Ratio(n - r, n - i)))
  }

  /** The upper factor of A when every angle is zero: row 0 is n - c, and row i > 0
      is (n - c) / (n - i + 1) from the diagonal on. */
  ghost function StraightUpper(n: nat): (U: Matrix)
    ensures IsSquare(U, n) && IsUpperTriangular(U, n)
  {
    seq(n, i requires 0 <= i < n => seq(n, c requires 0 <= c < n =>
      if c < i then 0.0 else if i == 0 then (n - c) as real else Ratio(n - c, n - i + 1)))
  }

  /** If d e == x y and e is one of the two nonzero factors, d is the other. */
  lemma CancelFactor(d: real, e: real, x: real, y: real)
    requires e != 0.0 && d * e == x * y
    ensures e == x ==> d == y
    ensures e == y ==> d == x
  {
  }

  /** One step of the telescoping sum, cleared of denominators: if
      prev b' == x y, p b == x and q b' == y with b' == b + 1, then
      (prev + p q) b == x y. */
  lemma TelescopeStep(d: real, prev: real, p: real, q: real, x: real, y: real, b: real, b': real)
    requires b' == b + 1.0 && b' != 0.0 && d == prev + p * q
    requires prev * b' == x * y && p * b == x && q * b' == y
    ensures d * b == x * y
  {
    assert prev * b' == x * (q * b');
    CancelFactor(prev, b', x, q * b');
    assert d * b == x * q * b + p * b * q;
    assert d * b == x * q * b';
  }

  /** The entries of u and v up to k are u[j] == x / (a - j) and
      v[j] == y / (a - j + 1), except v[0] == y. */
  ghost predicate TelescopeEntries(u: Vector, v: Vector, x: nat, y: nat, a: nat, k: nat)
    requires k <= |u| && k <= |v| && k <= a
    decreases k
  {
    k == 0 ||
    (TelescopeEntries(u, v, x, y, a, k - 1) &&
     u[k - 1] == Ratio(x, a - (k - 1)) &&
     if k == 1 then v[0] == y as real else v[k - 1] == Ratio(y, a - (k - 1) + 1))
  }

  /** The first term of the telescoping sum. */
  lemma TelescopeFirst(u: Vector, v: Vector, x: nat, y: nat, a: nat)
    requires 1 <= |u| && 1 <= |v| && 1 <= a
    requires u[0] == Ratio(x, a - (1 - 1)) && v[0] == y as real
    ensures Dot(u, v, 0, 1) * (a - 1 + 1) as real == x as real * y as real
  {
    DotStep(u, v, 0, 0);
    assert Ratio(x, a) * a as real == x as real;
  }

  /** From the first k - 1 terms to the first k. */
  lemma TelescopeDotStep(u: Vector, v: Vector, x: nat, y: nat, a: nat, k: nat)
    requires 2 <= k <= |u| && k <= |v| && k <= a
    requires Dot(u, v, 0, k - 1) * (a - (k - 1) + 1) as real == x as real * y as real
    requires u[k - 1] == Ratio(x, a - (k - 1)) && v[k - 1] == Ratio(y, a - (k - 1) + 1)
    ensures Dot(u, v, 0, k) * (a - k + 1) as real == x as real * y as real
  {
    DotStep(u, v, 0, k - 1);
    TelescopeStep(Dot(u, v, 0, k), Dot(u, v, 0, k - 1), u[k - 1], v[k - 1], x as real, y as real,
                  (a - (k - 1)) as real, (a - (k - 1) + 1) as real);
  }

  /** sum_{j<k} u[j] v[j] times (a - k + 1) is x y. */
  ghost predicate Telescoped(u: Vector, v: Vector, x: nat, y: nat, a: nat, k: nat)
    requires k <= |u| && k <= |v|
  {
    Dot(u, v, 0, k) * (a - k + 1) as real == x as real * y as real
  }

  /** Such entries make the sum telescope. */
  lemma {:induction false} TelescopingDot(u: Vector, v: Vector, x: nat, y: nat, a: nat, k: nat)
    requires 1 <= k <= |u| && k <= |v| && k <= a && TelescopeEntries(u, v, x, y, a, k)
    ensures Telescoped(u, v, x, y, a, k)
    decreases k
  {
    if k == 1 {
      TelescopeFirst(u, v, x, y, a);
    } else {
      TelescopingDot(u, v, x, y, a, k - 1);
      TelescopeDotStep(u, v, x, y, a, k);
    }
  }

  /** Row r of StraightLower and column c of StraightUpper have the entries of a
      telescoping sum with x == n - r, y == n - c and a == n. */
  lemma {:induction false} StraightEntries(n: nat, r: nat, c: nat, k: nat, row: Vector, col: Vector)
    requires r < n && c < n && 1 <= k <= r + 1 && k <= c + 1
    requires row == StraightLower(n)[r] && col == Column(StraightUpper(n), c)
    ensures TelescopeEntries(row, col, n - r, n - c, n, k)
    decreases k
  {
    if r == k - 1 {
      RatioOfSelf(n - r);
    }
    if k > 1 {
      StraightEntries(n, r, c, k - 1, row, col);
    }
  }

  /** The first k terms of row r of StraightLower times column c of StraightUpper,
      times n - k + 1, make (n - r) (n - c): the sum telescopes, since term j is
      (n - r) (n - c) (1 / (n - j) - 1 / (n - j + 1)) for j > 0. */
  lemma StraightPartialProduct(n: nat, r: nat, c: nat, k: nat, row: Vector, col: Vector)
    requires r < n && c < n && 1 <= k <= r + 1 && k <= c + 1
    requires row == StraightLower(n)[r] && col == Column(StraightUpper(n), c)
    ensures |row| == n && |col| == n && Telescoped(row, col, n - r, n - c, n, k)
  {
    StraightEntries(n, r, c, k, row, col);
    TelescopingDot(row, col, n - r, n - c, n, k);
  }

  /** Cancelling the factor n - k + 1 when it is n - r or n - c. */
  lemma PrefixValue(n: nat, r: nat, c: nat, k: nat, row: Vector, col: Vector)
    requires r < n && c < n && 1 <= k <= r + 1 && k <= c + 1 && |row| == n && |col| == n
    requires Telescoped(row, col, n - r, n - c, n, k)
    ensures k == r + 1 ==> Dot(row, col, 0, k) == (n - c) as real
    ensures k == c + 1 ==> Dot(row, col, 0, k) == (n - r) as real
  {
    CancelFactor(Dot(row, col, 0, k), (n - k + 1) as real, (n - r) as real, (n - c) as real);
  }

  /** Row r of StraightLower times column c of StraightUpper is n - max(r, c). */
  lemma StraightProductEntry(n: nat, r: nat, c: nat, row: Vector, col: Vector)
    requires r < n && c < n
    requires row == StraightLower(n)[r] && col == Column(StraightUpper(n), c)
    ensures Dot(row, col, 0, n) == Weight(n, r, c)
  {
    var k := if r < c then r + 1 else c + 1;
    StraightPartialProduct(n, r, c, k, row, col);
    PrefixValue(n, r, c, k, row, col);
    DotZeroTail(row, col, 0, k, n);
  }

  /** When cos 0 == 1, the matrix of the straight chain (every angle zero) has a
      Doolittle factorisation with pivots n, (n - 1) / n, ..., 1 / 2, all nonzero, so
      the solver is defined on it for every n. */
  lemma StraightChainNonsingular(n: nat, trig: Trig)
    requires CosOfZero(trig)
    ensures Nonsingular(MatrixA(n, Zeros(n), trig), n)
  {
    var A, L, U := MatrixA(n, Zeros(n), trig), StraightLower(n), StraightUpper(n);
    forall r, c | 0 <= r < n && 0 <= c < n ensures Dot(L[r], Column(U, c), 0, n) == A[r][c] {
      StraightProductEntry(n, r, c, L[r], Column(U, c));
      assert Zeros(n)[r] - Zeros(n)[c] == 0.0;
    }
    forall i | 0 <= i < n ensures U[i][i] != 0.0 {
      if i > 0 {
        assert U[i][i] == Ratio(n - i, n - i + 1);
        RatioNonzero(n - i, n - i + 1);
      }
    }
    assert IsLu(L, U, A, n);
  }

  /** With every angle zero the centripetal terms all vanish, whatever the angular
      velocities. */
  lemma {:induction false} VelocitySumAtZero(n: nat, thetas: Vector, omegas: Vector, trig: Trig, i: nat, m: nat)
    requires |thetas| == n && |omegas| == n && i < n && m <= n
    requires SinOfZero(trig) && forall k :: 0 <= k < n ==> thetas[k] == 0.0
    ensures VelocitySum(n, thetas, omegas, trig, i, m) == 0.0
  {
    if m > 0 {
      VelocitySumAtZero(n, thetas, omegas, trig, i, m - 1);
      assert thetas[i] - thetas[m - 1] == 0.0;
      assert VelocityTerm(n, thetas, omegas, trig, i, m - 1) == 0.0;
    }
  }

  /** With every angle zero (the chain straight along the y axis) B is zero, whatever the
      angular velocities. */
  lemma VectorBAtZero(n: nat, thetas: Vector, omegas: Vector, trig: Trig)
    requires |thetas| == n && |omegas| == n
    requires SinOfZero(trig) && forall k :: 0 <= k < n ==> thetas[k] == 0.0
    ensures VectorB(n, thetas, omegas, trig) == Zeros(n)
  {
    forall i | 0 <= i < n ensures VectorB(n, thetas, omegas, trig)[i] == 0.0 {
      VelocitySumAtZero(n, thetas, omegas, trig, i, n);
    }
  }

  /** For a single pendulum B is the one entry -GRAVITY * sin(theta_0). */
  lemma VectorBSingle(thetas: Vector, omegas: Vector, trig: Trig)
    requires |thetas| == 1 && |omegas| == 1 && SinOfZero(trig)
    ensures VectorB(1, thetas, omegas, trig) == [-Gravity * trig.sin(thetas[0])]
  {
    assert thetas[0] - thetas[0] == 0.0;
    assert VelocityTerm(1, thetas, omegas, trig, 0, 0) == 0.0;
    assert VelocitySum(1, thetas, omegas, trig, 0, 1) == 0.0;
    assert VectorB(1, thetas, omegas, trig)[0] == -Gravity * trig.sin(thetas[0]);
  }

  /** A single pendulum accelerates by alpha exactly when alpha == -GRAVITY * sin(theta_0),
      the classical simple-pendulum law in the source's sign convention. */
  lemma SinglePendulum(thetas: Vector, omegas: Vector, alphas: Vector, trig: Trig)
    requires |thetas| == 1 && |omegas| == 1 && |alphas| == 1
    requires SinOfZero(trig) && CosOfZero(trig)
    ensures Accelerates(1, trig, thetas, omegas, alphas) <==> alphas[0] == -Gravity * trig.sin(thetas[0])
  {
    VectorBSingle(thetas, omegas, trig);
    MatrixADiagonal(1, thetas, trig);
    var A := MatrixA(1, thetas, trig);
    assert MatVec(A, alphas, 1)[0] == alphas[0] by {
      assert MatVec(A, alphas, 1)[0] == Dot(A[0], alphas, 0, 1);
      assert A[0][0] == 1.0;
    }
  }

  /** The straight chain does not accelerate: with every angle zero the only
      accelerations are zero, whatever the angular velocities. */
  lemma StraightChainDoesNotAccelerate(n: nat, thetas: Vector, omegas: Vector, alphas: Vector, trig: Trig)
    requires thetas == Zeros(n) && |omegas| == n && SinOfZero(trig) && CosOfZero(trig)
    ensures Accelerates(n, trig, thetas, omegas, alphas) <==> alphas == Zeros(n)
  {
    var A, zero := MatrixA(n, thetas, trig), Zeros(n);
    StraightChainNonsingular(n, trig);
    VectorBAtZero(n, thetas, omegas, trig);
    MatVecOfZero(A, n);
    if Accelerates(n, trig, thetas, omegas, alphas) {
      SolutionUnique(A, alphas, zero, n);
    }
  }

  /** The solution of A * alphas == B, when A is nonsingular, is unique. */
  lemma AccelerationUnique(n: nat, trig: Trig, thetas: Vector, omegas: Vector, alphas: Vector, alphas': Vector)
    requires |thetas| == n && Nonsingular(MatrixA(n, thetas, trig), n)
    requires Accelerates(n, trig, thetas, omegas, alphas) && Accelerates(n, trig, thetas, omegas, alphas')
    ensures alphas == alphas'
  {
    SolutionUnique(MatrixA(n, thetas, trig), alphas, alphas', n);
  }
}
