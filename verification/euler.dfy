/** The explicit Euler method (euler.cpp): every body moves with its
    velocity and speeds up with its cached acceleration over one step. */
module EulerScheme {
  import opened Vectors
  import opened Universes

  /** One body after an Euler step of length `dt`. */
  function Advance(b: Body, dt: real): Body
  {
    b.(position := Add(b.position, Scale(b.velocity, dt)),
       velocity := Add(b.velocity, Scale(b.acceleration, dt)))
  }

  /** The whole universe after an Euler step. */
  function EulerStep(u: seq<Body>, dt: real): (r: seq<Body>)
    ensures |r| == |u|
  {
    seq(|u|, j requires 0 <= j < |u| => Advance(u[j], dt))
  }

  /** `Euler::computeStepImplementation`: each body in turn gets
      `position += dt * velocity` and then `velocity += dt * acceleration`. */
  method EulerStepInPlace(u: array<Body>, dt: real)
    modifies u
    ensures u[..] == EulerStep(old(u[..]), dt)
  {
    for i := 0 to u.Length
      invariant forall j :: 0 <= j < i ==> u[j] == Advance(old(u[j]), dt)
      invariant forall j :: i <= j < u.Length ==> u[j] == old(u[j])
    {
      var body := u[i];
      body := body.(position := Add(body.position, Scale(body.velocity, dt)));
      body := body.(velocity := Add(body.velocity, Scale(body.acceleration, dt)));
      u[i] := body;
    }
  }

  /** An Euler step reads each body's own fields only, uses the velocity
      from before the step, and changes nothing but position and velocity. */
  lemma EulerIsLocal(u: seq<Body>, dt: real, j: nat)
    requires j < |u|
    ensures EulerStep(u, dt)[j].position == Add(u[j].position, Scale(u[j].velocity, dt))
    ensures EulerStep(u, dt)[j].velocity == Add(u[j].velocity, Scale(u[j].acceleration, dt))
    ensures EulerStep(u, dt)[j].acceleration == u[j].acceleration
    ensures EulerStep(u, dt)[j].mass == u[j].mass && EulerStep(u, dt)[j].radius == u[j].radius
    ensures forall v: seq<Body> :: |v| == |u| && v[j] == u[j] ==> EulerStep(v, dt)[j] == EulerStep(u, dt)[j]
  {
  }

  /** A step of length zero changes nothing. */
  lemma EulerZeroStep(u: seq<Body>)
    ensures EulerStep(u, 0.0) == u
  {
    assert forall j :: 0 <= j < |u| ==> Advance(u[j], 0.0) == u[j];
  }

  /** Without acceleration the method is exact: two steps of `a` and `b`
      give the one step of `a + b` (uniform straight motion). */
  lemma {:induction false} EulerUniformMotion(u: seq<Body>, a: real, b: real)
    requires forall j :: 0 <= j < |u| ==> u[j].acceleration == Zero
    ensures EulerStep(EulerStep(u, a), b) == EulerStep(u, a + b)
  {
    forall j | 0 <= j < |u|
      ensures EulerStep(EulerStep(u, a), b)[j] == EulerStep(u, a + b)[j]
    {
      var p := u[j].position;
      var v := u[j].velocity;
      assert Add(Add(p, Scale(v, a)), Scale(v, b)) == Add(p, Scale(v, a + b));
    }
  }

  /** The unit test: a lone body at the origin moving at (1, 0, 0) without
      acceleration is at (1, 0, 0) after a step of 1, and a body at rest stays. */
  lemma EulerLoneBody(b: Body)
    ensures b.position == Zero && b.velocity == Vector(1.0, 0.0, 0.0) && b.acceleration == Zero ==>
      EulerStep([b], 1.0) == [b.(position := Vector(1.0, 0.0, 0.0))]
    ensures b.velocity == Zero && b.acceleration == Zero ==> EulerStep([b], 1.0) == [b]
  {
  }
}
