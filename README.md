# N-link pendulum physics, modelled in Dafny

This project models the physics core of a real-time simulation of a chain of n
pendulums (`src/main.c`): n bobs of unit mass hang one after the other on n rigid,
massless rods of unit length from a fixed anchor. The state of the chain is the
angle `thetas[i]` of every rod and its angular velocity `omegas[i]`. Once per
frame the program

1. builds the coefficient matrix `A[i][j] = (n - max(i, j)) * cos(theta_i - theta_j)`
   (`createMatrixA`) and the forcing vector
   `B[i] = -sum_j (n - max(i, j)) * omega_j^2 * sin(theta_i - theta_j) - (n - i) * GRAVITY * sin(theta_i)`
   (`createVectorB`),
2. solves `A * alpha = B` for the angular accelerations with a Doolittle LU
   decomposition without pivoting followed by forward and backward substitution
   (`lu_decompose`, `forward_substitution`, `backward_substitution`,
   `solveLinearSystem`),
3. packs (omega, alpha) as the derivative of the state (`f`) and advances the state
   by one classical fourth-order Runge-Kutta step (`rk4`),
4. turns the angles into joint positions by a running sum of
   `(sin theta_i, cos theta_i)` from the anchor `(ANCHOR_X, ANCHOR_Y) = (0, 0.5)`
   (`coordinates`).

The Dafny modules follow these steps:

- `LinearAlgebra` (`linear_algebra.dfy`): vectors and matrices as sequences,
  partial dot products, what a Doolittle factorisation is (`IsLu`, `Nonsingular`),
  and the lemmas that connect the recurrences of the solver to `L * U == A`,
  `L * y == b`, `U * x == y` and `A * x == b`, plus uniqueness of the solution.
- `LuSolver` (`lu_solver.dfy`): the four solver functions as imperative methods on
  arrays. The source's row-major `n * n` float buffers are `array2<real>` (entry
  `i * n + j` is `[i, j]`); vectors are `array<real>` of length n.
- `Trigonometry` (`trigonometry.dfy`): `sin` and `cos` of the C library as a pair of
  functions passed in, and the identities of them that a property needs.
- `Dynamics` (`dynamics.dfy`): `createMatrixA`, `createVectorB` and the equations of
  motion `Accelerates(thetas, omegas, alphas)`, i.e. `A * alphas == B`.
- `Integrator` (`integrator.dfy`): `f` and `rk4`.
- `Kinematics` (`kinematics.dfy`): `coordinates`.

Scalars are mathematical reals. The division by the pivot `U[i][i]` in
`lu_decompose` and `backward_substitution` is unchecked in the source; the model
turns it into a precondition. `LuDecompose` receives, as ghost arguments, a
Doolittle factorisation of A whose pivots `U[i][i]`, `i < n - 1`, are nonzero, and
`SolveLinearSystem` and its callers require that A has such a factorisation with
all n pivots nonzero (`Nonsingular`). The model proves one direction of the link
between this requirement and the source's divisions: when such a factorisation
exists, Doolittle's method computes exactly it, dividing only by its nonzero
pivots. The converse (if every pivot the method computes is nonzero, what it
returns is a factorisation of A) is a standard fact of linear algebra that the
model does not prove. `rk4` solves four systems, at four stage states that depend
on the previous stages' results; `StepDefined` requires each of them to be
nonsingular. At rest (every angle and angular velocity zero) this holds for every
n and every dt: `StraightChainNonsingular` exhibits the factorisation of the
straight chain's matrix `A[r][c] = n - max(r, c)`, with pivots n, (n - 1) / n, ...,
1 / 2.

No method that models a function of the source changes an array it did not
allocate itself: `createMatrixA`, `createVectorB`, the solver, `f`, `rk4` and
`coordinates` have no `modifies` clause, and Dafny checks that they write only to
arrays they allocate. The two helpers `RowOfU` and `ColumnOfL` update
`LuDecompose`'s own `U` and `L` in place, and their `modifies` clauses name just
that array.

## Model

| member | source | states |
|---|---|---|
| `LuSolver.RowTimesColumn` | src/main.c:128-131 | the `sum` loops of `lu_decompose` compute the partial dot product of row r of L and column c of U over the first m indices |
| `LuSolver.RowOfU` | src/main.c:127-133 | given the rows of U before i and the columns of L before i equal to the factorisation, the loop makes row i of U equal to it and leaves the other rows unchanged |
| `LuSolver.ColumnOfL` | src/main.c:135-145 | given the rows of U up to i and the columns of L before i equal to the factorisation, the loop writes 1 on the diagonal and `(A[k][i] - sum) / U[i][i]` below it, making column i of L equal to the factorisation |
| `LuSolver.LuDecompose` | src/main.c:115-153 | for every A with a Doolittle factorisation whose pivots are nonzero, the two returned matrices are exactly that factorisation: L unit lower triangular, U upper triangular, L * U == A |
| `LinearAlgebra.LuRowEntry` | src/main.c:132 | the value stored in U[i][k], `A[i][k] - sum_{j<i} L[i][j] * U[j][k]`, is the factorisation's U[i][k] |
| `LinearAlgebra.LuColumnEntry` | src/main.c:143 | the value stored in L[k][i], `(A[k][i] - sum_{j<i} L[k][j] * U[j][i]) / U[i][i]`, is the factorisation's L[k][i] when the pivot is nonzero |
| `LuSolver.ForwardSubstitution` | src/main.c:155-170 | every y[i] plus the strictly lower part of row i of L times y equals B[i]; when L is unit lower triangular, L * y == B |
| `LinearAlgebra.UnitLowerSolves` | src/main.c:161-167 | the forward recurrence, for a unit lower triangular L, solves L * y == b |
| `LuSolver.BackwardSubstitution` | src/main.c:172-187 | with a nonzero diagonal, every row i of U from the diagonal on, times x, equals y[i]; when U is upper triangular, U * x == y |
| `LinearAlgebra.BackSubstitutionStep` | src/main.c:183 | setting x[i] to `(y[i] - sum_{j>i} U[i][j] * x[j]) / U[i][i]` makes row i of U from the diagonal on, times x, equal y[i] |
| `LinearAlgebra.UpperSolves` | src/main.c:178-184 | the backward recurrence, for an upper triangular U, solves U * x == y |
| `LinearAlgebra.MatVecOfProduct` | src/main.c:192-197 | if A == L * U then A * x == L * (U * x), so solving with the two factors in turn solves with A |
| `LinearAlgebra.SolveThroughFactors` | src/main.c:192-197 | L * y == b and U * x == y give A * x == b |
| `LuSolver.SolveLinearSystem` | src/main.c:189-208 | for a nonsingular A, the returned vector solves A * x == B |
| `LinearAlgebra.KernelTrivial` | src/main.c:189-208 | a nonsingular A maps only the zero vector to zero |
| `LinearAlgebra.SolutionUnique` | src/main.c:189-208 | for a nonsingular A, two vectors with the same image are equal: the solver's answer is the only solution |
| `LinearAlgebra.MatVecOfZero` | src/main.c:189-208 | A times the zero vector is the zero vector |
| `Dynamics.Weight` | src/main.c:91 | the coefficient `n - max(i, j)` lies between 1 and n |
| `Dynamics.CreateMatrixA` | src/main.c:86-97 | the returned n x n matrix has entry `(n - max(i, j)) * cos(theta_i - theta_j)` at [i, j] |
| `Dynamics.MatrixASymmetric` | src/main.c:91 | when cos is even, A is symmetric |
| `Dynamics.MatrixADiagonal` | src/main.c:91 | when cos 0 == 1, the diagonal entry of row i is n - i |
| `Dynamics.StraightProductEntry` | src/main.c:91 | at zero angles, row r of the explicit lower factor times column c of the explicit upper factor is the coefficient n - max(r, c) |
| `Dynamics.StraightChainNonsingular` | src/main.c:86-97 | when cos 0 == 1, the matrix built for the straight chain (every angle zero) has a Doolittle factorisation with all pivots nonzero, for every n |
| `Dynamics.CreateVectorB` | src/main.c:99-113 | entry i of the returned vector is `-sum_j (n - max(i, j)) * omega_j^2 * sin(theta_i - theta_j) - (n - i) * GRAVITY * sin(theta_i)`, the terms subtracted one by one from 0 |
| `Dynamics.VelocitySumAtZero` | src/main.c:104-106 | when sin 0 == 0 and every angle is zero, the centripetal terms of a row sum to zero, whatever the angular velocities |
| `Dynamics.VectorBAtZero` | src/main.c:99-113 | when sin 0 == 0 and every angle is zero, B is the zero vector, whatever the angular velocities |
| `Dynamics.VectorBSingle` | src/main.c:99-113 | for n == 1, B is the single entry `-GRAVITY * sin(theta_0)` |
| `Dynamics.SinglePendulum` | src/main.c:86-113 | for n == 1, alpha solves A * alpha == B if and only if `alpha == -GRAVITY * sin(theta_0)` |
| `Dynamics.StraightChainDoesNotAccelerate` | src/main.c:86-113 | when sin 0 == 0 and cos 0 == 1 and every angle is zero, alpha solves A * alpha == B if and only if alpha is zero, whatever the angular velocities |
| `Dynamics.AccelerationUnique` | src/main.c:214 | for a nonsingular A, the accelerations of a state are unique |
| `Integrator.Derivative` | src/main.c:210-229 | the first returned vector is a copy of omegas; the second solves A(thetas) * alpha == B(thetas, omegas) |
| `Integrator.StagePoint` | src/main.c:236-239 | the stage state is `thetas + h * dThetas`, `omegas + h * dOmegas`, entry by entry |
| `Integrator.Advance` | src/main.c:270-294 | the new state is `x + (k1 + 2 k2 + 2 k3 + k4) * (dt / 6)`, entry by entry |
| `Integrator.Rk4` | src/main.c:231-304 | the result is a Runge-Kutta step of the equations of motion, with the four stage accelerations solving the stage systems; with dt == 0 it is the input state |
| `Integrator.CombineZero` | src/main.c:271-293 | a combination with dt == 0 leaves the state unchanged |
| `Integrator.ZeroStep` | src/main.c:231-304 | any Runge-Kutta step of length zero returns the state it started from |
| `Integrator.ShiftIdentity` | src/main.c:237-260 | a stage point taken with a zero step, or along a zero derivative, is the starting state |
| `Integrator.StepDefinedAtZeroStep` | src/main.c:231-304 | with dt == 0, all four stage systems are solvable if and only if A at the starting angles is nonsingular |
| `Integrator.StagesAtRest` | src/main.c:231-304 | when sin 0 == 0 and cos 0 == 1, starting with all angles and angular velocities zero, all four stage accelerations are zero |
| `Integrator.StepDefinedAtRest` | src/main.c:231-304 | when sin 0 == 0 and cos 0 == 1, every linear system a step from rest solves is nonsingular, for every dt, so `Rk4` can be called there |
| `Integrator.RestIsEquilibrium` | src/main.c:231-304 | when sin 0 == 0 and cos 0 == 1, starting with all angles and angular velocities zero, a step of any length returns the same state |
| `Kinematics.Coordinates` | src/main.c:306-321 | point i of the result is the end of rod i: the anchor plus the sum of `(sin theta_k, cos theta_k)` over the rods up to i |
| `Kinematics.SumAppend` | src/main.c:313-314 | appending one term to a running sum adds that term |
| `Kinematics.JointClosedForm` | src/main.c:306-321 | joint m is `(ANCHOR_X + sum_{k<m} sin theta_k, ANCHOR_Y + sum_{k<m} cos theta_k)` |
| `Kinematics.RodsHaveUnitLength` | src/main.c:313-314 | consecutive joints differ by `(sin theta, cos theta)` of the rod between them, a vector of length 1 when sin^2 + cos^2 == 1 |
| `Kinematics.StraightChain` | src/main.c:306-321 | with every angle zero, joint m is `(0, 0.5 + m)` |
| `Kinematics.JointDependsOnRodsAbove` | src/main.c:311-318 | joint m depends only on the first m angles |

## Left out

- Floating point: every quantity is a mathematical real. Float rounding, the
  `float`/`double` conversions around `fmax`, `cos` and `sin`, overflow, and the
  infinities and NaNs that a zero or tiny pivot produces are not modelled.
- `sin` and `cos` are not computed. Every operation takes them as a parameter, and
  each property names the identities it uses (sin 0 == 0, cos 0 == 1, cos even,
  sin^2 + cos^2 == 1).
- Memory: `malloc` and `free`, the `GLfloat**` pairs that carry two results, and
  the pointer array that carries the coordinates are not modelled. A pair of
  results is two out-parameters, and a coordinate pair is a `Point` value.
- Buffer sizes: every buffer is an array of exactly n (or n x n) entries. The
  source only needs at least that many.
- `LuSolver.LuDecompose`: the zero-filling loops of `L` and `U` are array
  initialisers. Each inner loop over k is its own method (`RowOfU`, `ColumnOfL`),
  and the `sum` loops are `RowTimesColumn`.
- `LuSolver.BackwardSubstitution`: requires every diagonal entry of U to be
  nonzero, because the source divides by each of them.
- `LuSolver.LuDecompose`, `LuSolver.SolveLinearSystem`, `Integrator.Derivative` and
  `Integrator.Rk4`: a zero pivot is excluded by precondition, as the source does
  not detect it.
- `Integrator.Rk4`: the three stage loops are one method, `StagePoint`, called
  with `dt / 2`, `dt / 2` and `dt`. The two final loops are `Advance`, called once
  for the angles and once for the angular velocities.
- The rendering (`bobVertices`, `rodVertices`, shaders, buffers, window and input
  handling) and `main`, which runs `rk4` once per frame with `TIME_STEP` and feeds
  the new angles to `coordinates`, are not part of this model.
