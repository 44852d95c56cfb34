/** One simulation step: `f` evaluates the right-hand side of the first-order
    system (theta' == omega, omega' == alpha) and `rk4` advances the state by one
    classical fourth-order Runge-Kutta step of length dt. */
module Integrator {
  import opened LinearAlgebra
  import opened Trigonometry
  import opened LuSolver
  import opened Dynamics

  /** x + h * d, entry by entry: the point at which a Runge-Kutta stage is evaluated. */
  function Shift(x: Vector, h: real, d: Vector): (r: Vector)
    requires |x| == |d|
    ensures |r| == |x|
  {
    seq(|x|, i requires 0 <= i < |x| => x[i] + h * d[i])
  }

  /** x + (k1 + 2 k2 + 2 k3 + k4) * (dt / 6), entry by entry: the Runge-Kutta update. */
  function Combine(x: Vector, dt: real, k1: Vector, k2: Vector, k3: Vector, k4: Vector): (r: Vector)
    requires |k1| == |x| && |k2| == |x| && |k3| == |x| && |k4| == |x|
    ensures |r| == |x|
  {
    seq(|x|, i requires 0 <= i < |x| => x[i] + (k1[i] + 2.0 * k2[i] + 2.0 * k3[i] + k4[i]) * (dt / 6.0))
  }

  /** a1..a4 are the accelerations of the four Runge-Kutta stages started at
      (thetas, omegas): stage 1 at the state itself, stages 2 and 3 half a step along
      the previous stage's derivative, stage 4 a whole step along stage 3's. */
  ghost predicate Stages(n: nat, trig: Trig, dt: real, thetas: Vector, omegas: Vector,
                         a1: Vector, a2: Vector, a3: Vector, a4: Vector)
  {
    |thetas| == n && |omegas| == n && |a1| == n && |a2| == n && |a3| == n &&
    Accelerates(n, trig, thetas, omegas, a1) &&
    Accelerates(n, trig, Shift(thetas, dt / 2.0, omegas), Shift(omegas, dt / 2.0, a1), a2) &&
    Accelerates(n, trig, Shift(thetas, dt / 2.0, Shift(omegas, dt / 2.0, a1)), Shift(omegas, dt / 2.0, a2), a3) &&
    Accelerates(n, trig, Shift(thetas, dt, Shift(omegas, dt / 2.0, a2)), Shift(omegas, dt, a3), a4)
  }

  /** (thetas', omegas') is a Runge-Kutta step of length dt from (thetas, omegas). The
      angle derivatives of the four stages are the stage angular velocities omegas,
      omegas + dt/2 * a1, omegas + dt/2 * a2 and omegas + dt * a3. */
  ghost predicate IsRk4Step(n: nat, trig: Trig, dt: real, thetas: Vector, omegas: Vector,
                            thetas': Vector, omegas': Vector)
  {
    |thetas| == n && |omegas| == n &&
    exists a1: Vector, a2: Vector, a3: Vector, a4: Vector ::
      Stages(n, trig, dt, thetas, omegas, a1, a2, a3, a4) &&
      thetas' == Combine(thetas, dt, omegas, Shift(omegas, dt / 2.0, a1),
                         Shift(omegas, dt / 2.0, a2), Shift(omegas, dt, a3)) &&
      omegas' == Combine(omegas, dt, a1, a2, a3, a4)
  }

  /** Every linear system rk4 solves can be solved by the LU solver: the matrix of
      each stage, whichever accelerations the earlier stages produced, is
      nonsingular. */
  ghost predicate StepDefined(n: nat, trig: Trig, dt: real, thetas: Vector, omegas: Vector)
    requires |thetas| == n && |omegas| == n
  {
    Nonsingular(MatrixA(n, thetas, trig), n) &&
    forall a1 :: Accelerates(n, trig, thetas, omegas, a1) ==>
      SecondStageDefined(n, trig, dt, dt / 2.0, thetas, omegas, a1)
  }

  /** Stages 2 to 4 are solvable once stage 1 has produced a1; h is dt / 2. */
  ghost predicate SecondStageDefined(n: nat, trig: Trig, dt: real, h: real, thetas: Vector, omegas: Vector, a1: Vector)
    requires |thetas| == n && |omegas| == n && |a1| == n
  {
    Nonsingular(MatrixA(n, Shift(thetas, h, omegas), trig), n) &&
    forall a2 :: Accelerates(n, trig, Shift(thetas, h, omegas), Shift(omegas, h, a1), a2) ==>
      ThirdStageDefined(n, trig, dt, h, thetas, omegas, a1, a2)
  }

  /** Stages 3 and 4 are solvable once stages 1 and 2 have produced a1 and a2. */
  ghost predicate ThirdStageDefined(n: nat, trig: Trig, dt: real, h: real, thetas: Vector, omegas: Vector,
                                    a1: Vector, a2: Vector)
    requires |thetas| == n && |omegas| == n && |a1| == n && |a2| == n
  {
    Nonsingular(MatrixA(n, Shift(thetas, h, Shift(omegas, h, a1)), trig), n) &&
    forall a3 :: Accelerates(n, trig, Shift(thetas, h, Shift(omegas, h, a1)), Shift(omegas, h, a2), a3) ==>
      Nonsingular(MatrixA(n, Shift(thetas, dt, Shift(omegas, h, a2)), trig), n)
  }

  // ---------------------------------------------------------------------------
  // The two operations

  /** f: the derivative of the state. The angle derivatives are a copy of the angular
      velocities; the angular-velocity derivatives solve A(thetas) * alphas ==
      B(thetas, omegas). */
  method Derivative(n: nat, thetas: array<real>, omegas: array<real>, trig: Trig)
    returns (dThetas: array<real>, dOmegas: array<real>)
    requires thetas.Length == n && omegas.Length == n
    requires Nonsingular(MatrixA(n, thetas[..], trig), n)
    ensures dThetas[..] == omegas[..]
    ensures Accelerates(n, trig, thetas[..], omegas[..], dOmegas[..])
  {
    ghost var th, om := thetas[..], omegas[..];
    var A := CreateMatrixA(n, thetas, trig);
    var B := CreateVectorB(n, thetas, omegas, trig);
    var alphas := SolveLinearSystem(n, A, B);
    ghost var al := alphas[..];
    assert Accelerates(n, trig, th, om, al);
    dThetas := new real[n];
    dOmegas := new real[n];
    forall i | 0 <= i < n {
      dThetas[i] := omegas[i];
    }
    forall i | 0 <= i < n {
      dOmegas[i] := alphas[i];
    }
    assert dOmegas[..] == al;
    assert thetas[..] == th && omegas[..] == om;
  }

  /** One of the three stage loops of rk4: stageThetas == thetas + h * dThetas and
      stageOmegas == omegas + h * dOmegas. */
  method StagePoint(n: nat, thetas: array<real>, omegas: array<real>, h: real,
                    dThetas: array<real>, dOmegas: array<real>)
    returns (stageThetas: array<real>, stageOmegas: array<real>)
    requires thetas.Length == n && omegas.Length == n && dThetas.Length == n && dOmegas.Length == n
    ensures stageThetas[..] == Shift(thetas[..], h, dThetas[..])
    ensures stageOmegas[..] == Shift(omegas[..], h, dOmegas[..])
  {
    ghost var specThetas, specOmegas := Shift(thetas[..], h, dThetas[..]), Shift(omegas[..], h, dOmegas[..]);
    stageThetas := new real[n];
    stageOmegas := new real[n];
    for i := 0 to n
      invariant forall r :: 0 <= r < i ==> stageThetas[r] == specThetas[r]
      invariant forall r :: 0 <= r < i ==> stageOmegas[r] == specOmegas[r]
    {
      stageThetas[i] := thetas[i] + h * dThetas[i];
      stageOmegas[i] := omegas[i] + h * dOmegas[i];
    }
  }

  /** The last two loops of rk4: the weighted increments, then the new state. */
  method Advance(n: nat, dt: real, x: array<real>,
                 k1: array<real>, k2: array<real>, k3: array<real>, k4: array<real>)
    returns (x': array<real>)
    requires x.Length == n && k1.Length == n && k2.Length == n && k3.Length == n && k4.Length == n
    ensures x'[..] == Combine(x[..], dt, k1[..], k2[..], k3[..], k4[..])
  {
    ghost var spec := Combine(x[..], dt, k1[..], k2[..], k3[..], k4[..]);
    var deltas := new real[n];
    for i := 0 to n
      invariant forall r :: 0 <= r < i ==> x[r] + deltas[r] == spec[r]
    {
      deltas[i] := (k1[i] + 2.0 * k2[i] + 2.0 * k3[i] + k4[i]) * (dt / 6.0);
    }
    x' := new real[n];
    for i := 0 to n
      invariant forall r :: 0 <= r < n ==> x[r] + deltas[r] == spec[r]
      invariant forall r :: 0 <= r < i ==> x'[r] == spec[r]
    {
      x'[i] := x[i] + deltas[i];
    }
  }

  /** rk4: one step of length dt. The result is a Runge-Kutta step of the equations
      of motion; a step of length zero returns the state unchanged. The input arrays
      are only read. */
  method Rk4(dt: real, n: nat, thetas: array<real>, omegas: array<real>, trig: Trig)
    returns (newThetas: array<real>, newOmegas: array<real>)
    requires thetas.Length == n && omegas.Length == n
    requires StepDefined(n, trig, dt, thetas[..], omegas[..])
    ensures IsRk4Step(n, trig, dt, thetas[..], omegas[..], newThetas[..], newOmegas[..])
    ensures dt == 0.0 ==> newThetas[..] == thetas[..] && newOmegas[..] == omegas[..]
  {
    ghost var th, om := thetas[..], omegas[..];
    var k1Thetas, k1Omegas := Derivative(n, thetas, omegas, trig);
    ghost var a1 := k1Omegas[..];

    var k2A, k2B := StagePoint(n, thetas, omegas, dt / 2.0, k1Thetas, k1Omegas);
    var k2Thetas, k2Omegas := Derivative(n, k2A, k2B, trig);
    ghost var a2 := k2Omegas[..];

    var k3A, k3B := StagePoint(n, thetas, omegas, dt / 2.0, k2Thetas, k2Omegas);
    var k3Thetas, k3Omegas := Derivative(n, k3A, k3B, trig);
    ghost var a3 := k3Omegas[..];

    var k4A, k4B := StagePoint(n, thetas, omegas, dt, k3Thetas, k3Omegas);
    var k4Thetas, k4Omegas := Derivative(n, k4A, k4B, trig);
    ghost var a4 := k4Omegas[..];

    newThetas := Advance(n, dt, thetas, k1Thetas, k2Thetas, k3Thetas, k4Thetas);
    newOmegas := Advance(n, dt, omegas, k1Omegas, k2Omegas, k3Omegas, k4Omegas);
    assert Stages(n, trig, dt, th, om, a1, a2, a3, a4);
    if dt == 0.0 {
      ZeroStep(n, trig, th, om, newThetas[..], newOmegas[..]);
    }
  }

  // ---------------------------------------------------------------------------
  // Properties of a step

  /** A combination with step zero leaves x unchanged. */
  lemma CombineZero(x: Vector, k1: Vector, k2: Vector, k3: Vector, k4: Vector)
    requires |k1| == |x| && |k2| == |x| && |k3| == |x| && |k4| == |x|
    ensures Combine(x, 0.0, k1, k2, k3, k4) == x
  {
    var r := Combine(x, 0.0, k1, k2, k3, k4);
    forall i | 0 <= i < |x| ensures r[i] == x[i] {
      var s := k1[i] + 2.0 * k2[i] + 2.0 * k3[i] + k4[i];
      assert s * (0.0 / 6.0) == 0.0;
    }
  }

  /** A step of length zero returns the state it started from. */
  lemma ZeroStep(n: nat, trig: Trig, thetas: Vector, omegas: Vector, thetas': Vector, omegas': Vector)
    requires IsRk4Step(n, trig, 0.0, thetas, omegas, thetas', omegas')
    ensures thetas' == thetas && omegas' == omegas
  {
    var a1: Vector, a2: Vector, a3: Vector, a4: Vector :|
      Stages(n, trig, 0.0, thetas, omegas, a1, a2, a3, a4) &&
      thetas' == Combine(thetas, 0.0, omegas, Shift(omegas, 0.0 / 2.0, a1),
                         Shift(omegas, 0.0 / 2.0, a2), Shift(omegas, 0.0, a3)) &&
      omegas' == Combine(omegas, 0.0, a1, a2, a3, a4);
    CombineZero(thetas, omegas, Shift(omegas, 0.0 / 2.0, a1), Shift(omegas, 0.0 / 2.0, a2), Shift(omegas, 0.0, a3));
    CombineZero(omegas, a1, a2, a3, a4);
  }

  /** A shift by a zero vector, or by a zero step, leaves x unchanged. */
  lemma ShiftIdentity(x: Vector, h: real, d: Vector)
    requires |x| == |d|
    requires h == 0.0 || forall i :: 0 <= i < |d| ==> d[i] == 0.0
    ensures Shift(x, h, d) == x
  {
    forall i | 0 <= i < |x| ensures Shift(x, h, d)[i] == x[i] {
      assert h * d[i] == 0.0;
    }
  }

  /** With a zero step every stage is evaluated at the starting state, so the step
      is defined exactly when the matrix of that state is nonsingular. */
  lemma StepDefinedAtZeroStep(n: nat, trig: Trig, thetas: Vector, omegas: Vector)
    requires |thetas| == n && |omegas| == n
    ensures StepDefined(n, trig, 0.0, thetas, omegas) <==> Nonsingular(MatrixA(n, thetas, trig), n)
  {
    ShiftIdentity(thetas, 0.0 / 2.0, omegas);
    forall d: Vector | |d| == n
      ensures Shift(thetas, 0.0 / 2.0, d) == thetas && Shift(thetas, 0.0, d) == thetas
      ensures Shift(omegas, 0.0 / 2.0, d) == omegas && Shift(omegas, 0.0, d) == omegas
    {
      ShiftIdentity(thetas, 0.0 / 2.0, d);
      ShiftIdentity(thetas, 0.0, d);
      ShiftIdentity(omegas, 0.0 / 2.0, d);
      ShiftIdentity(omegas, 0.0, d);
    }
  }

  /** At rest, every stage of a step has zero accelerations. */
  lemma StagesAtRest(n: nat, trig: Trig, dt: real, thetas: Vector, omegas: Vector,
                     a1: Vector, a2: Vector, a3: Vector, a4: Vector)
    requires thetas == Zeros(n) && omegas == Zeros(n) && SinOfZero(trig) && CosOfZero(trig)
    requires Stages(n, trig, dt, thetas, omegas, a1, a2, a3, a4)
    ensures a1 == Zeros(n) && a2 == Zeros(n) && a3 == Zeros(n) && a4 == Zeros(n)
  {
    StraightChainDoesNotAccelerate(n, thetas, omegas, a1, trig);
    ShiftIdentity(thetas, dt / 2.0, omegas);
    ShiftIdentity(omegas, dt / 2.0, a1);
    StraightChainDoesNotAccelerate(n, thetas, omegas, a2, trig);
    ShiftIdentity(omegas, dt / 2.0, a2);
    StraightChainDoesNotAccelerate(n, thetas, omegas, a3, trig);
    ShiftIdentity(thetas, dt, omegas);
    ShiftIdentity(omegas, dt, a3);
    StraightChainDoesNotAccelerate(n, thetas, omegas, a4, trig);
  }

  /** The straight chain at rest stays so: if every angle and angular
      velocity is zero, the step returns the same state, whatever dt is. */
  lemma RestIsEquilibrium(n: nat, trig: Trig, dt: real, thetas: Vector, omegas: Vector,
                          thetas': Vector, omegas': Vector)
    requires thetas == Zeros(n) && omegas == Zeros(n) && SinOfZero(trig) && CosOfZero(trig)
    requires IsRk4Step(n, trig, dt, thetas, omegas, thetas', omegas')
    ensures thetas' == thetas && omegas' == omegas
  {
    var a1: Vector, a2: Vector, a3: Vector, a4: Vector :|
      Stages(n, trig, dt, thetas, omegas, a1, a2, a3, a4) &&
      thetas' == Combine(thetas, dt, omegas, Shift(omegas, dt / 2.0, a1),
                         Shift(omegas, dt / 2.0, a2), Shift(omegas, dt, a3)) &&
      omegas' == Combine(omegas, dt, a1, a2, a3, a4);
    StagesAtRest(n, trig, dt, thetas, omegas, a1, a2, a3, a4);
    ShiftIdentity(omegas, dt / 2.0, a1);
    ShiftIdentity(omegas, dt / 2.0, a2);
    ShiftIdentity(omegas, dt, a3);
    CombineOfZeros(thetas, dt, omegas, omegas, omegas, omegas);
    CombineOfZeros(omegas, dt, a1, a2, a3, a4);
  }

  /** At rest every stage is evaluated at the rest state itself, whose matrix is
      nonsingular, so a step of any length from rest is defined. */
  lemma StepDefinedAtRest(n: nat, trig: Trig, dt: real, thetas: Vector, omegas: Vector)
    requires thetas == Zeros(n) && omegas == Zeros(n) && SinOfZero(trig) && CosOfZero(trig)
    ensures StepDefined(n, trig, dt, thetas, omegas)
  {
    StraightChainNonsingular(n, trig);
    forall h: real, d: Vector | |d| == n && d == Zeros(n)
      ensures Shift(thetas, h, d) == thetas && Shift(omegas, h, d) == omegas
    {
      ShiftIdentity(thetas, h, d);
      ShiftIdentity(omegas, h, d);
    }
    forall a: Vector | Accelerates(n, trig, thetas, omegas, a) ensures a == Zeros(n) {
      StraightChainDoesNotAccelerate(n, thetas, omegas, a, trig);
    }
  }

  /** Zero increments leave x unchanged. */
  lemma CombineOfZeros(x: Vector, dt: real, k1: Vector, k2: Vector, k3: Vector, k4: Vector)
    requires |k1| == |x| && |k2| == |x| && |k3| == |x| && |k4| == |x|
    requires forall i :: 0 <= i < |x| ==> k1[i] == 0.0 && k2[i] == 0.0 && k3[i] == 0.0 && k4[i] == 0.0
    ensures Combine(x, dt, k1, k2, k3, k4) == x
  {
  }
}
