/** The leapfrog-style method of leapfrog.cpp. The position is advanced
    with the cached acceleration; the velocity with the mean of the cached
    acceleration and a new one evaluated at the body's new position.
    The position update weighs the acceleration by `dt / 2` where the
    velocity Verlet formula has `dt * dt / 2`; the model keeps the code's
    `dt / 2`. */
module LeapfrogScheme {
  import opened Outcomes
  import opened Vectors
  import opened Universes
  import opened Forces
  import opened Sweeps

  /** The body after `position += dt * velocity + dt / 2 * acceleration`. */
  function Moved(b: Body, dt: real): Body
  {
    b.(position := Add(b.position, Add(Scale(b.velocity, dt), Scale(b.acceleration, dt / 2.0))))
  }

  /** The moved body after `velocity += dt * (acceleration + newAcc) / 2`. */
  function Corrected(m: Body, newAcc: Vector, dt: real): Body
  {
    m.(velocity := Add(m.velocity, Quot(Scale(Add(m.acceleration, newAcc), dt), 2.0)))
  }

  /** One iteration for body `j` of the current universe `w`: the body is
      moved in the universe first, then the new acceleration is evaluated
      on that universe. A crash leaves the body moved but not corrected. */
  function LeapfrogBody(w: seq<Body>, j: nat, b: Body, dt: real): (r: BodyStep)
    requires j < |w|
    ensures r.Stopped? ==> r.error == Crash && r.partial == Moved(b, dt)
  {
    var m := Moved(b, dt);
    match AccelerationAt(w[j := m], j, m.position)
    case Err(e) => Stopped(e, m)
    case Ok(a) => Advanced(Corrected(m, a, dt))
  }

  function LeapfrogStepper(dt: real): Stepper
  {
    (w: seq<Body>, j: nat, b: Body) requires j < |w| => LeapfrogBody(w, j, b, dt)
  }

  /** `Leapfrog::computeStepImplementation` as a function of the universe. */
  function LeapfrogStep(u: seq<Body>, dt: real): (r: Swept)
    ensures |r.bodies| == |u|
  {
    assert Applicable(LeapfrogStepper(dt), |u|);
    SweepFrom(LeapfrogStepper(dt), u, 0)
  }

  /** One iteration of the loop in terms of the universe before it. */
  lemma LeapfrogIteration(w: seq<Body>, i: nat, dt: real)
    requires i < |w|
    ensures var m := Moved(w[i], dt);
      match AccelerationAt(w[i := m], i, m.position)
      case Err(e) => SweepFrom(LeapfrogStepper(dt), w, i) == Swept(Fail(e), w[i := m], i)
      case Ok(a) => SweepFrom(LeapfrogStepper(dt), w, i) == SweepFrom(LeapfrogStepper(dt), w[i := Corrected(m, a, dt)], i + 1)
  {
    assert Applicable(LeapfrogStepper(dt), |w|);
  }

  /** The body of the loop for body `i`: move it, evaluate the new
      acceleration on the universe that holds the moved body, correct the
      velocity. */
  method LeapfrogAdvanceBody(u: array<Body>, i: nat, dt: real) returns (out: Outcome)
    requires i < u.Length
    modifies u
    ensures var m := Moved(old(u[i]), dt);
      match AccelerationAt(old(u[..])[i := m], i, m.position)
      case Err(e) => out == Fail(e) && u[..] == old(u[..])[i := m]
      case Ok(a) => out == Pass && u[..] == old(u[..])[i := Corrected(m, a, dt)]
  {
    var body := u[i];
    body := body.(position := Add(body.position, Add(Scale(body.velocity, dt), Scale(body.acceleration, dt / 2.0))));
    u[i] := body;
    var newAcc := AccelerationAt(u[..], i, body.position);
    if newAcc.Err? {
      return Fail(newAcc.error);
    }
    body := body.(velocity := Add(body.velocity, Quot(Scale(Add(body.acceleration, newAcc.value), dt), 2.0)));
    u[i] := body;
    out := Pass;
  }

  /** `Leapfrog::computeStepImplementation`. */
  method LeapfrogStepInPlace(u: array<Body>, dt: real) returns (out: Outcome)
    modifies u
    ensures out == LeapfrogStep(old(u[..]), dt).outcome && u[..] == LeapfrogStep(old(u[..]), dt).bodies
  {
    ghost var orig := u[..];
    for i := 0 to u.Length
      invariant LeapfrogInvariant(orig, u[..], i, dt)
    {
      out := LeapfrogIterate(u, i, dt, orig);
      if out.Fail? {
        return;
      }
    }
    out := Pass;
  }

  /** What holds before iteration `i` of the loop over the universe that
      was `orig` when the step began: the sweep from `i` on the current
      state ends where the sweep of the whole step ends. */
  ghost predicate LeapfrogInvariant(orig: seq<Body>, w: seq<Body>, i: nat, dt: real)
  {
    && i <= |w| == |orig|
    && Applicable(LeapfrogStepper(dt), |w|)
    && SweepFrom(LeapfrogStepper(dt), w, i) == LeapfrogStep(orig, dt)
  }

  /** One iteration of the loop: it keeps the invariant or ends the step
      the way the sweep does. */
  method LeapfrogIterate(u: array<Body>, i: nat, dt: real, ghost orig: seq<Body>) returns (out: Outcome)
    requires i < u.Length && LeapfrogInvariant(orig, u[..], i, dt)
    modifies u
    ensures out.Pass? ==> LeapfrogInvariant(orig, u[..], i + 1, dt)
    ensures out.Fail? ==> out == LeapfrogStep(orig, dt).outcome && u[..] == LeapfrogStep(orig, dt).bodies
  {
    LeapfrogIteration(u[..], i, dt);
    out := LeapfrogAdvanceBody(u, i, dt);
  }

  /** Bodies are advanced in place one after another: body `i`'s new
      acceleration is evaluated with the bodies before it at their new state
      and the bodies after it at their old one; a crash for body `stop`
      leaves that body moved and the later ones untouched. */
  lemma LeapfrogInOrder(u: seq<Body>, dt: real)
    ensures var r := LeapfrogStep(u, dt);
      && (forall i :: 0 <= i < r.stop ==> LeapfrogBody(StateAt(u, r.bodies, i), i, u[i], dt) == Advanced(r.bodies[i]))
      && (r.outcome.Fail? ==>
            && LeapfrogBody(StateAt(u, r.bodies, r.stop), r.stop, u[r.stop], dt).Stopped?
            && r.bodies[r.stop] == Moved(u[r.stop], dt)
            && r.bodies[r.stop + 1..] == u[r.stop + 1..])
  {
    assert Applicable(LeapfrogStepper(dt), |u|);
    SweepExplained(LeapfrogStepper(dt), u);
  }

  /** The cached acceleration, the mass and the radius of every body are
      left as they were, whether or not the step crashes. */
  lemma LeapfrogKeepsCache(u: seq<Body>, dt: real)
    ensures forall j :: 0 <= j < |u| ==>
      && LeapfrogStep(u, dt).bodies[j].acceleration == u[j].acceleration
      && LeapfrogStep(u, dt).bodies[j].mass == u[j].mass
      && LeapfrogStep(u, dt).bodies[j].radius == u[j].radius
  {
    var r := LeapfrogStep(u, dt);
    LeapfrogInOrder(u, dt);
    forall j | 0 <= j < |u|
      ensures r.bodies[j].acceleration == u[j].acceleration && r.bodies[j].mass == u[j].mass && r.bodies[j].radius == u[j].radius
    {
      if j < r.stop {
        var s := LeapfrogBody(StateAt(u, r.bodies, j), j, u[j], dt);
        assert s == Advanced(r.bodies[j]);
      } else if j > r.stop {
        assert r.bodies[j] == r.bodies[r.stop + 1..][j - r.stop - 1];
      }
    }
  }

  lemma MovedWithoutAcceleration(b: Body, dt: real)
    requires b.acceleration == Zero
    ensures Moved(b, dt) == b.(position := Add(b.position, Scale(b.velocity, dt)))
    ensures Corrected(Moved(b, dt), Zero, dt) == Moved(b, dt)
  {
    assert Scale(Zero, dt / 2.0) == Zero;
    assert Add(Scale(b.velocity, dt), Zero) == Scale(b.velocity, dt);
    assert Quot(Scale(Add(Zero, Zero), dt), 2.0) == Zero;
    assert Add(b.velocity, Zero) == b.velocity;
  }

  /** A lone body is moved and then corrected with a zero new acceleration. */
  lemma LeapfrogLone(b: Body, dt: real)
    ensures LeapfrogStep([b], dt) == Swept(Pass, [Corrected(Moved(b, dt), Zero, dt)], 1)
  {
    var m := Moved(b, dt);
    assert [b][0 := m] == [m];
    LoneBodyFeelsNoForce(m, m.position);
    var c := Corrected(m, Zero, dt);
    assert LeapfrogStepper(dt)([b], 0, b) == Advanced(c);
    assert [b][0 := c] == [c];
    assert SweepFrom(LeapfrogStepper(dt), [c], 1) == Swept(Pass, [c], 1);
  }

  /** A lone body without acceleration keeps its velocity and moves in a
      straight line: the unit test's body at the origin moving at (1, 0, 0)
      reaches (1, 0, 0) in a step of 1. */
  lemma LeapfrogLoneBody(b: Body)
    requires b.position == Zero && b.velocity == Vector(1.0, 0.0, 0.0) && b.acceleration == Zero
    ensures LeapfrogStep([b], 1.0) == Swept(Pass, [b.(position := Vector(1.0, 0.0, 0.0))], 1)
  {
    UnitMove(b);
    LeapfrogLone(b, 1.0);
  }

  lemma UnitMove(b: Body)
    requires b.position == Zero && b.velocity == Vector(1.0, 0.0, 0.0) && b.acceleration == Zero
    ensures Corrected(Moved(b, 1.0), Zero, 1.0) == b.(position := Vector(1.0, 0.0, 0.0))
  {
    MovedWithoutAcceleration(b, 1.0);
    assert Add(b.position, Scale(b.velocity, 1.0)) == Vector(1.0, 0.0, 0.0);
  }
}
