/** Where the joints of the chain are (`coordinates` in src/main.c): starting from
    the anchor, each rod of unit length adds (sin theta, cos theta) to the running
    position, and the end of rod i is where bob i is drawn. */
module Kinematics {
  import opened LinearAlgebra
  import opened Trigonometry

  datatype Point = Point(x: real, y: real)

  /** ANCHOR_X, ANCHOR_Y: the fixed point the first rod hangs from. */
  const AnchorX: real := 0.0
  const AnchorY: real := 0.5

  /** The end of the first m rods. */
  function Joint(thetas: Vector, trig: Trig, m: nat): Point
    requires m <= |thetas|
  {
    if m == 0 then Point(AnchorX, AnchorY)
    else
      var p := Joint(thetas, trig, m - 1);
      Point(p.x + trig.sin(thetas[m - 1]), p.y + trig.cos(thetas[m - 1]))
  }

  /** coordinates: one running sum in x and one in y; after adding the i-th rod the
      pair is stored as point i. */
  method Coordinates(n: nat, thetas: array<real>, trig: Trig) returns (coords: array<Point>)
    requires thetas.Length == n
    ensures coords.Length == n
    ensures forall i :: 0 <= i < n ==> coords[i] == Joint(thetas[..], trig, i + 1)
  {
    var x, y := AnchorX, AnchorY;
    coords := new Point[n];
    for i := 0 to n
      invariant Point(x, y) == Joint(thetas[..], trig, i)
      invariant forall r :: 0 <= r < i ==> coords[r] == Joint(thetas[..], trig, r + 1)
    {
      x := x + trig.sin(thetas[i]);
      y := y + trig.cos(thetas[i]);
      coords[i] := Point(x, y);
    }
  }

  // ---------------------------------------------------------------------------
  // Closed form

  /** The sum of a sequence, first element first. */
  function Sum(s: seq<real>): real {
    if s == [] then 0.0 else s[0] + Sum(s[1..])
  }

  lemma {:induction false} SumAppend(s: seq<real>, v: real)
    ensures Sum(s + [v]) == Sum(s) + v
  {
    if s != [] {
      assert (s + [v])[1..] == s[1..] + [v];
      SumAppend(s[1..], v);
    }
  }

  /** sin of the first m angles. */
  function Sines(thetas: Vector, trig: Trig, m: nat): (s: seq<real>)
    requires m <= |thetas|
    ensures |s| == m && forall k :: 0 <= k < m ==> s[k] == trig.sin(thetas[k])
  {
    seq(m, k requires 0 <= k < m => trig.sin(thetas[k]))
  }

  /** cos of the first m angles. */
  function Cosines(thetas: Vector, trig: Trig, m: nat): (s: seq<real>)
    requires m <= |thetas|
    ensures |s| == m && forall k :: 0 <= k < m ==> s[k] == trig.cos(thetas[k])
  {
    seq(m, k requires 0 <= k < m => trig.cos(thetas[k]))
  }

  /** The end of rod i is (ANCHOR_X + sum_{k<=i} sin theta_k, ANCHOR_Y + sum_{k<=i} cos theta_k). */
  lemma {:induction false} JointClosedForm(thetas: Vector, trig: Trig, m: nat)
    requires m <= |thetas|
    ensures Joint(thetas, trig, m) == Point(AnchorX + Sum(Sines(thetas, trig, m)), AnchorY + Sum(Cosines(thetas, trig, m)))
  {
    if m > 0 {
      JointClosedForm(thetas, trig, m - 1);
      assert Sines(thetas, trig, m) == Sines(thetas, trig, m - 1) + [trig.sin(thetas[m - 1])];
      assert Cosines(thetas, trig, m) == Cosines(thetas, trig, m - 1) + [trig.cos(thetas[m - 1])];
      SumAppend(Sines(thetas, trig, m - 1), trig.sin(thetas[m - 1]));
      SumAppend(Cosines(thetas, trig, m - 1), trig.cos(thetas[m - 1]));
    }
  }

  // ---------------------------------------------------------------------------
  // Geometry of the chain

  /** Consecutive joints are one rod apart: joint m - 1 to joint m is
      (sin theta_{m-1}, cos theta_{m-1}), a vector of length 1. */
  lemma RodsHaveUnitLength(thetas: Vector, trig: Trig, m: nat)
    requires 0 < m <= |thetas| && Pythagorean(trig)
    ensures var p, q := Joint(thetas, trig, m - 1), Joint(thetas, trig, m);
      q.x - p.x == trig.sin(thetas[m - 1]) && q.y - p.y == trig.cos(thetas[m - 1]) &&
      (q.x - p.x) * (q.x - p.x) + (q.y - p.y) * (q.y - p.y) == 1.0
  {
    var p, q := Joint(thetas, trig, m - 1), Joint(thetas, trig, m);
    var a := thetas[m - 1];
    assert q.x - p.x == trig.sin(a) && q.y - p.y == trig.cos(a);
    assert trig.sin(a) * trig.sin(a) + trig.cos(a) * trig.cos(a) == 1.0;
  }

  /** With every angle zero the chain is straight along the y axis: joint m is (0, 0.5 + m). */
  lemma {:induction false} StraightChain(thetas: Vector, trig: Trig, m: nat)
    requires m <= |thetas| && SinOfZero(trig) && CosOfZero(trig)
    requires forall k :: 0 <= k < |thetas| ==> thetas[k] == 0.0
    ensures Joint(thetas, trig, m) == Point(0.0, 0.5 + m as real)
  {
    if m > 0 {
      StraightChain(thetas, trig, m - 1);
      assert thetas[m - 1] == 0.0;
    }
  }

  /** Joint m depends only on the first m angles: turning a rod further down the
      chain does not move the joints above it. */
  lemma {:induction false} JointDependsOnRodsAbove(thetas: Vector, thetas': Vector, trig: Trig, m: nat)
    requires m <= |thetas| && m <= |thetas'| && thetas[..m] == thetas'[..m]
    ensures Joint(thetas, trig, m) == Joint(thetas', trig, m)
  {
    if m > 0 {
      assert thetas[..m - 1] == thetas[..m][..m - 1];
      assert thetas'[..m - 1] == thetas'[..m][..m - 1];
      JointDependsOnRodsAbove(thetas, thetas', trig, m - 1);
      assert thetas[m - 1] == thetas[..m][m - 1] == thetas'[m - 1];
    }
  }
}
