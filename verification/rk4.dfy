/** The classical fourth-order Runge-Kutta method of rk4.cpp, with the
    recording mode that the Adams methods use to start their history. */
module RungeKuttaScheme {
  import opened Outcomes
  import opened Vectors
  import opened Universes
  import opened Forces
  import opened Sweeps

  /** The body after the update `p += h * k`, `v += h * l`, where `k` and `l`
      are the weighted means `(k1 + 2 k2 + 2 k3 + k4) / 6` of the stage
      velocities and accelerations. `k1` and `l1` are the body's velocity
      and cached acceleration; `l2`, `l3`, `l4` are the evaluated stage
      accelerations. */
  function Combine(b: Body, h: real, l2: Vector, l3: Vector, l4: Vector): Body
  {
    var k1 := b.velocity;
    var l1 := b.acceleration;
    var k2 := Add(b.velocity, Quot(Scale(l1, h), 2.0));
    var k3 := Add(b.velocity, Quot(Scale(l2, h), 2.0));
    var k4 := Add(b.velocity, Scale(l3, h));
    var k := Quot(Add(Add(Add(k1, Scale(k2, 2.0)), Scale(k3, 2.0)), k4), 6.0);
    var l := Quot(Add(Add(Add(l1, Scale(l2, 2.0)), Scale(l3, 2.0)), l4), 6.0);
    b.(position := Add(b.position, Scale(k, h)), velocity := Add(b.velocity, Scale(l, h)))
  }

  /** The three points where the stage accelerations are evaluated:
      `p + h k1 / 2`, `p + h k2 / 2` and `p + h k3`, the last one depending
      on the second stage's acceleration `l2`. */
  function SecondStagePoint(b: Body, h: real): Vector
  {
    Add(b.position, Quot(Scale(b.velocity, h), 2.0))
  }

  function ThirdStagePoint(b: Body, h: real): Vector
  {
    Add(b.position, Quot(Scale(Add(b.velocity, Quot(Scale(b.acceleration, h), 2.0)), h), 2.0))
  }

  function FourthStagePoint(b: Body, h: real, l2: Vector): Vector
  {
    Add(b.position, Scale(Add(b.velocity, Quot(Scale(l2, h), 2.0)), h))
  }

  /** One iteration for body `j`, whose value is `b`, in the current
      universe `w`: the stage accelerations are evaluated on `w`; any of
      them may crash, before the body changes. */
  function Rk4Body(w: seq<Body>, j: nat, b: Body, h: real): (r: BodyStep)
    ensures r.Stopped? ==> r.error == Crash && r.partial == b
  {
    match AccelerationAt(w, j, SecondStagePoint(b, h))
    case Err(e) => Stopped(e, b)
    case Ok(l2) =>
      match AccelerationAt(w, j, ThirdStagePoint(b, h))
      case Err(e) => Stopped(e, b)
      case Ok(l3) =>
        match AccelerationAt(w, j, FourthStagePoint(b, h, l2))
        case Err(e) => Stopped(e, b)
        case Ok(l4) => Advanced(Combine(b, h, l2, l3, l4))
  }

  function Rk4Stepper(h: real): Stepper
  {
    (w: seq<Body>, j: nat, b: Body) => Rk4Body(w, j, b, h)
  }

  /** The end of a step: outcome, bodies, step data and where it stopped. */
  datatype Rk4Run = Rk4Run(outcome: Outcome, bodies: seq<Body>, data: Frame)

  /** `RungeKutta::computeStepImplementation` as a function of the universe
      and the step data after the clearing that recording does first: when
      recording, the `(k1, l1)` item of every body that was advanced is
      appended, in universe order. */
  function Rk4Step(u: seq<Body>, h: real, record: bool, data: Frame): (r: Rk4Run)
    ensures |r.bodies| == |u|
    ensures !record ==> r.data == data
    ensures record && r.outcome.Pass? ==> r.data == data + ItemsOf(u)
    ensures record ==> data <= r.data && |r.data| <= |data| + |u|
  {
    assert Applicable(Rk4Stepper(h), |u|);
    var s := SweepFrom(Rk4Stepper(h), u, 0);
    assert s.outcome.Pass? ==> u[..s.stop] == u;
    Rk4Run(s.outcome, s.bodies, if record then data + ItemsOf(u[..s.stop]) else data)
  }

  /** One iteration of the loop in terms of the universe before it. */
  lemma Rk4Iteration(w: seq<Body>, i: nat, h: real)
    requires i < |w|
    ensures match Rk4Body(w, i, w[i], h)
      case Stopped(e, b) => SweepFrom(Rk4Stepper(h), w, i) == Swept(Fail(e), w[i := b], i)
      case Advanced(b) => SweepFrom(Rk4Stepper(h), w, i) == SweepFrom(Rk4Stepper(h), w[i := b], i + 1)
  {
    assert Applicable(Rk4Stepper(h), |w|);
  }

  /** The body of the loop for body `i`: the four stages, then the update. */
  method Rk4AdvanceBody(u: array<Body>, i: nat, h: real) returns (out: Outcome)
    requires i < u.Length
    modifies u
    ensures match Rk4Body(old(u[..]), i, old(u[i]), h)
      case Stopped(e, _) => out == Fail(e) && u[..] == old(u[..])
      case Advanced(b) => out == Pass && u[..] == old(u[..])[i := b]
  {
    var body := u[i];
    var k1 := body.velocity;
    var l1 := body.acceleration;
    var k2 := Add(body.velocity, Quot(Scale(l1, h), 2.0));
    var l2 := AccelerationAt(u[..], i, Add(body.position, Quot(Scale(k1, h), 2.0)));
    if l2.Err? {
      return Fail(l2.error);
    }
    var k3 := Add(body.velocity, Quot(Scale(l2.value, h), 2.0));
    var l3 := AccelerationAt(u[..], i, Add(body.position, Quot(Scale(k2, h), 2.0)));
    if l3.Err? {
      return Fail(l3.error);
    }
    var k4 := Add(body.velocity, Scale(l3.value, h));
    var l4 := AccelerationAt(u[..], i, Add(body.position, Scale(k3, h)));
    if l4.Err? {
      return Fail(l4.error);
    }
    var k := Quot(Add(Add(Add(k1, Scale(k2, 2.0)), Scale(k3, 2.0)), k4), 6.0);
    var l := Quot(Add(Add(Add(l1, Scale(l2.value, 2.0)), Scale(l3.value, 2.0)), l4.value), 6.0);
    body := body.(position := Add(body.position, Scale(k, h)));
    body := body.(velocity := Add(body.velocity, Scale(l, h)));
    u[i] := body;
    out := Pass;
  }

  /** What holds before iteration `i` of the loop over the universe that
      was `orig` when the step began: `w` is the sweep's state, the bodies
      from `i` on are untouched, and the step data holds the items of the
      bodies already advanced. */
  ghost predicate Rk4Invariant(orig: seq<Body>, w: seq<Body>, i: nat, h: real, record: bool, data: Frame, stepData: Frame)
  {
    && i <= |w| == |orig|
    && Applicable(Rk4Stepper(h), |w|)
    && SweepFrom(Rk4Stepper(h), w, i) == SweepFrom(Rk4Stepper(h), orig, 0)
    && (forall k :: i <= k < |w| ==> w[k] == orig[k])
    && (!record ==> stepData == data)
    && (record ==> stepData == data + ItemsOf(orig[..i]))
  }

  /** One iteration of the loop: it keeps the invariant or ends the step. */
  method Rk4Iterate(u: array<Body>, i: nat, h: real, record: bool, ghost orig: seq<Body>, ghost data: Frame, stepData: Frame)
      returns (out: Outcome, newData: Frame)
    requires i < u.Length && Rk4Invariant(orig, u[..], i, h, record, data, stepData)
    modifies u
    ensures out.Pass? ==> Rk4Invariant(orig, u[..], i + 1, h, record, data, newData)
    ensures out.Fail? ==> Rk4Run(out, u[..], newData) == Rk4Step(orig, h, record, data)
  {
    var item := HistoryItem(u[i].velocity, u[i].acceleration);
    Rk4Iteration(u[..], i, h);
    out := Rk4AdvanceBody(u, i, h);
    newData := stepData;
    if out.Fail? {
      Rk4Stopped(orig, h, record, data, i, out.error);
      return;
    }
    if record {
      ItemsOfSnoc(orig, i);
      newData := stepData + [item];
    }
  }

  /** `RungeKutta::computeStepImplementation` on the bodies: `data` is
      `stepData` after the clearing that recording does first. */
  method Rk4StepInPlace(u: array<Body>, h: real, record: bool, data: Frame) returns (out: Outcome, stepData: Frame)
    modifies u
    ensures Rk4Run(out, u[..], stepData) == Rk4Step(old(u[..]), h, record, data)
  {
    ghost var orig := u[..];
    assert Applicable(Rk4Stepper(h), u.Length);
    stepData := data;
    for i := 0 to u.Length
      invariant Rk4Invariant(orig, u[..], i, h, record, data, stepData)
    {
      out, stepData := Rk4Iterate(u, i, h, record, orig, data, stepData);
      if out.Fail? {
        return;
      }
    }
    Rk4Completed(orig, h, record, data, u[..], stepData);
    out := Pass;
  }

  /** The run a sweep that stopped at `stop` yields. */
  lemma Rk4Stopped(u: seq<Body>, h: real, record: bool, data: Frame, stop: nat, e: Error)
    requires Applicable(Rk4Stepper(h), |u|) && stop <= |u|
    requires SweepFrom(Rk4Stepper(h), u, 0).outcome == Fail(e) && SweepFrom(Rk4Stepper(h), u, 0).stop == stop
    ensures Rk4Step(u, h, record, data) == Rk4Run(Fail(e), SweepFrom(Rk4Stepper(h), u, 0).bodies, if record then data + ItemsOf(u[..stop]) else data)
  {
  }

  /** The run a sweep that reached the end yields. */
  lemma Rk4Completed(u: seq<Body>, h: real, record: bool, data: Frame, w: seq<Body>, stepData: Frame)
    requires Rk4Invariant(u, w, |u|, h, record, data, stepData)
    ensures Rk4Step(u, h, record, data) == Rk4Run(Pass, w, stepData)
  {
    assert u[..|u|] == u;
  }

  /** Bodies are advanced in place one after another: the stage
      evaluations of body `i` see the bodies before it at their new state
      and the bodies after it at their old one; a crash leaves the crashing
      body and the later ones untouched. */
  lemma Rk4InOrder(u: seq<Body>, h: real, record: bool, data: Frame)
    ensures var r := Rk4Step(u, h, record, data);
      && (r.outcome.Pass? ==> forall i :: 0 <= i < |u| ==> Rk4Body(StateAt(u, r.bodies, i), i, u[i], h) == Advanced(r.bodies[i]))
      && (r.outcome.Fail? ==>
            exists k :: 0 <= k < |u| && r.bodies[k] == u[k] && r.bodies[k + 1..] == u[k + 1..]
              && Rk4Body(StateAt(u, r.bodies, k), k, u[k], h).Stopped?
              && (forall i :: 0 <= i < k ==> Rk4Body(StateAt(u, r.bodies, i), i, u[i], h) == Advanced(r.bodies[i])))
  {
    assert Applicable(Rk4Stepper(h), |u|);
    SweepExplained(Rk4Stepper(h), u);
    var s := SweepFrom(Rk4Stepper(h), u, 0);
    if s.outcome.Fail? {
      var k := s.stop;
      assert s.bodies[k] == u[k];
    }
  }

  /** With all accelerations zero, every stage velocity is the body's
      velocity, so the body moves by `h * v` and keeps its velocity. */
  lemma CombineWithoutAcceleration(b: Body, h: real)
    requires b.acceleration == Zero
    ensures Combine(b, h, Zero, Zero, Zero) == b.(position := Add(b.position, Scale(b.velocity, h)))
  {
    var v := b.velocity;
    assert Quot(Scale(Zero, h), 2.0) == Zero;
    assert Add(v, Zero) == v;
    assert Scale(Zero, h) == Zero;
    assert Quot(Add(Add(Add(v, Scale(v, 2.0)), Scale(v, 2.0)), v), 6.0) == v;
    assert Quot(Add(Add(Add(Zero, Scale(Zero, 2.0)), Scale(Zero, 2.0)), Zero), 6.0) == Zero;
  }

  lemma Rk4Lone(b: Body, h: real, record: bool, data: Frame)
    ensures Rk4Step([b], h, record, data)
         == Rk4Run(Pass, [Combine(b, h, Zero, Zero, Zero)], if record then data + [Item(b)] else data)
  {
    LoneBodyFeelsNoForce(b, SecondStagePoint(b, h));
    LoneBodyFeelsNoForce(b, ThirdStagePoint(b, h));
    LoneBodyFeelsNoForce(b, FourthStagePoint(b, h, Zero));
    var c := Combine(b, h, Zero, Zero, Zero);
    assert Rk4Stepper(h)([b], 0, b) == Advanced(c);
    assert [b][0 := c] == [c];
    assert SweepFrom(Rk4Stepper(h), [c], 1) == Swept(Pass, [c], 1);
    assert [b][..1] == [b];
  }

  /** A lone body without acceleration: all `l` stages are zero and all `k`
      stages equal its velocity, so it moves by `h * v` and keeps `v`; the
      unit test's body moving at (1, 0, 0) from the origin reaches (1, 0, 0)
      in a step of 1. */
  lemma Rk4LoneBody(b: Body, h: real, data: Frame)
    requires b.acceleration == Zero
    ensures Rk4Step([b], h, false, data) == Rk4Run(Pass, [b.(position := Add(b.position, Scale(b.velocity, h)))], data)
  {
    Rk4Lone(b, h, false, data);
    CombineWithoutAcceleration(b, h);
  }
}
