/** Newtonian gravity (base.h, base.cpp): the acceleration of one body at a
    given position, and the pass that stores every body's acceleration. */
module Forces {
  import opened Outcomes
  import opened Vectors
  import opened Universes

  /** Gravitational constant in m^3 kg^-1 s^-2. */
  const G: real := 0.0000000000667428

  /** Below this distance two bodies have crashed. */
  const MIN_DISTANCE: real := 0.1

  /** One entry of a multistep history: a body's velocity and acceleration. */
  datatype HistoryItem = HistoryItem(velocity: Vector, acc: Vector)

  /** The items of all bodies at one step, in universe order. */
  type Frame = seq<HistoryItem>

  /** The item of a body: its velocity and its cached acceleration. */
  function Item(b: Body): (item: HistoryItem)
    ensures item.velocity == b.velocity && item.acc == b.acceleration
  {
    HistoryItem(b.velocity, b.acceleration)
  }

  /** The items of a run of bodies, in order. */
  function ItemsOf(s: seq<Body>): (f: Frame)
    ensures |f| == |s| && forall j :: 0 <= j < |s| ==> f[j] == Item(s[j])
  {
    seq(|s|, j requires 0 <= j < |s| => Item(s[j]))
  }

  /** The items of one more body. */
  lemma ItemsOfSnoc(s: seq<Body>, i: nat)
    requires i < |s|
    ensures ItemsOf(s[..i + 1]) == ItemsOf(s[..i]) + [Item(s[i])]
  {
  }

  /** The contribution `mass * (p - q) / d^3` of a body at `q` to the sum
      for a position `p` at distance `d >= MIN_DISTANCE`. */
  function Pull(p: Vector, source: Body, d: real): Vector
    requires MIN_DISTANCE <= d
  {
    Quot(Scale(Sub(p, source.position), source.mass), d * d * d)
  }

  /** The loop of the per-body `computeAcceleration` over the first `n`
      bodies: the running sum, or "crash!" at the first other body closer
      than MIN_DISTANCE. Body `self` is skipped by its place in the
      universe, as the source skips it by address. */
  function PartialSum(u: seq<Body>, self: int, p: Vector, n: nat): (r: Result<Vector>)
    requires n <= |u|
    ensures r.Err? ==> r.error == Crash
  {
    if n == 0 then Ok(Zero)
    else
      match PartialSum(u, self, p, n - 1)
      case Err(e) => Err(e)
      case Ok(sum) =>
        if n - 1 == self then Ok(sum)
        else
          var d := Magnitude(Sub(p, u[n - 1].position));
          if d < MIN_DISTANCE then Err(Crash)
          else Ok(Add(sum, Pull(p, u[n - 1], d)))
  }

  /** `computeAcceleration(universe, body, position)`: the acceleration that
      the other bodies of `u` cause at `p`, `-G * sum of m_j (p - p_j) / d_j^3`. */
  function AccelerationAt(u: seq<Body>, self: int, p: Vector): (r: Result<Vector>)
    ensures r.Err? ==> r.error == Crash
  {
    match PartialSum(u, self, p, |u|)
    case Err(e) => Err(e)
    case Ok(sum) => Ok(Scale(sum, -G))
  }

  /** Some body other than `self`, among the first `n`, is too close to `p`. */
  predicate CloseBefore(u: seq<Body>, self: int, p: Vector, n: nat)
    requires n <= |u|
  {
    exists j :: 0 <= j < n && j != self && Magnitude(Sub(p, u[j].position)) < MIN_DISTANCE
  }

  lemma {:induction false} PartialSumCrashIffClose(u: seq<Body>, self: int, p: Vector, n: nat)
    requires n <= |u|
    ensures PartialSum(u, self, p, n).Err? <==> CloseBefore(u, self, p, n)
  {
    if n > 0 {
      PartialSumCrashIffClose(u, self, p, n - 1);
      if CloseBefore(u, self, p, n - 1) {
        var j :| 0 <= j < n - 1 && j != self && Magnitude(Sub(p, u[j].position)) < MIN_DISTANCE;
        assert 0 <= j < n && j != self && Magnitude(Sub(p, u[j].position)) < MIN_DISTANCE;
      }
      if CloseBefore(u, self, p, n) && !CloseBefore(u, self, p, n - 1) {
        var j :| 0 <= j < n && j != self && Magnitude(Sub(p, u[j].position)) < MIN_DISTANCE;
        assert j == n - 1;
      }
    }
  }

  /** "crash!" is raised exactly when another body is closer than MIN_DISTANCE. */
  lemma CrashIffClose(u: seq<Body>, self: int, p: Vector)
    ensures AccelerationAt(u, self, p).Err? <==> CloseBefore(u, self, p, |u|)
  {
    PartialSumCrashIffClose(u, self, p, |u|);
  }

  lemma {:induction false} PartialSumSources(u: seq<Body>, v: seq<Body>, self: int, p: Vector, n: nat)
    requires SameSourcesExcept(u, v, self) && n <= |u|
    ensures PartialSum(u, self, p, n) == PartialSum(v, self, p, n)
  {
    if n > 0 {
      PartialSumSources(u, v, self, p, n - 1);
    }
  }

  /** The acceleration reads only the positions and masses of the other
      bodies: not their velocities or cached accelerations, and nothing of
      body `self`. */
  lemma AccelerationReadsOnlySources(u: seq<Body>, v: seq<Body>, self: int, p: Vector)
    requires SameSourcesExcept(u, v, self)
    ensures AccelerationAt(u, self, p) == AccelerationAt(v, self, p)
  {
    PartialSumSources(u, v, self, p, |u|);
  }

  /** A body alone in its universe feels no force. */
  lemma LoneBodyFeelsNoForce(b: Body, p: Vector)
    ensures AccelerationAt([b], 0, p) == Ok(Zero)
  {
    assert PartialSum([b], 0, p, 1) == Ok(Zero);
  }

  /** With a lawful square root, a body 0.05 away crashes. */
  lemma CloseBodiesCrash(b: Body, c: Body)
    requires SqrtLaws()
    requires c.position == Add(b.position, Vector(0.05, 0.0, 0.0))
    ensures AccelerationAt([b, c], 0, b.position) == Err(Crash)
  {
    var diff := Sub(b.position, c.position);
    assert diff == Vector(-0.05, 0.0, 0.0);
    MagnitudeBelow(diff, MIN_DISTANCE);
    assert [b, c][1].position == c.position;
    assert Magnitude(Sub(b.position, [b, c][1].position)) < MIN_DISTANCE;
    assert CloseBefore([b, c], 0, b.position, 2);
    CrashIffClose([b, c], 0, b.position);
  }

  /** The mass-weighted acceleration that the pull of a source of mass
      `source`, at offset `diff` and cubed distance `k`, gives a body of
      mass `mb`, as the pass computes it. */
  function WeightedPull(diff: Vector, source: real, mb: real, k: real): Vector
    requires k != 0.0
  {
    Scale(Scale(Add(Zero, Quot(Scale(diff, source), k)), -G), mb)
  }

  /** One component of `WeightedPull`. */
  function WeightedPullComponent(dx: real, source: real, mb: real, k: real): real
    requires k != 0.0
  {
    (0.0 + dx * source / k) * -G * mb
  }

  lemma WeightedPullComponents(diff: Vector, source: real, mb: real, k: real)
    requires k != 0.0
    ensures WeightedPull(diff, source, mb, k) ==
      Vector(WeightedPullComponent(diff.x, source, mb, k), WeightedPullComponent(diff.y, source, mb, k),
             WeightedPullComponent(diff.z, source, mb, k))
  {
    var q := Quot(Scale(diff, source), k);
    assert q == Vector(diff.x * source / k, diff.y * source / k, diff.z * source / k);
    var s := Add(Zero, q);
    assert s == Vector(0.0 + q.x, 0.0 + q.y, 0.0 + q.z);
    assert Scale(Scale(s, -G), mb) == Vector(s.x * -G * mb, s.y * -G * mb, s.z * -G * mb);
  }

  /** Along one axis, the pull of `c` on `b` times `b`'s mass cancels the
      pull of `b` on `c` times `c`'s mass. */
  lemma PairComponentCancels(a: real, na: real, mb: real, mc: real, k: real)
    requires k != 0.0 && na == -a
    ensures WeightedPullComponent(a, mc, mb, k) + WeightedPullComponent(na, mb, mc, k) == 0.0
  {
    var q := a / k;
    assert a * mc / k == q * mc;
    assert na * mb / k == -(q * mb);
    calc {
      (0.0 + a * mc / k) * -G * mb + (0.0 + na * mb / k) * -G * mc;
      (q * mc) * -G * mb + -(q * mb) * -G * mc;
      -G * q * (mc * mb) + G * q * (mb * mc);
      0.0;
    }
  }

  lemma PairCancels(pq: Vector, qp: Vector, mb: real, mc: real, k: real)
    requires k != 0.0 && qp == Vector(-pq.x, -pq.y, -pq.z)
    ensures Add(WeightedPull(pq, mc, mb, k), WeightedPull(qp, mb, mc, k)) == Zero
  {
    WeightedPullComponents(pq, mc, mb, k);
    WeightedPullComponents(qp, mb, mc, k);
    PairComponentCancels(pq.x, qp.x, mb, mc, k);
    PairComponentCancels(pq.y, qp.y, mb, mc, k);
    PairComponentCancels(pq.z, qp.z, mb, mc, k);
  }

  /** In a universe of two bodies far enough apart, each one's acceleration
      is the pull of the other, at the same distance. */
  lemma PairAccelerations(b: Body, c: Body) returns (d: real)
    requires AccelerationAt([b, c], 0, b.position).Ok?
    ensures MIN_DISTANCE <= d
    ensures AccelerationAt([b, c], 0, b.position) == Ok(Scale(Add(Zero, Pull(b.position, c, d)), -G))
    ensures AccelerationAt([b, c], 1, c.position) == Ok(Scale(Add(Zero, Pull(c.position, b, d)), -G))
  {
    var u := [b, c];
    var pq := Sub(b.position, c.position);
    var qp := Sub(c.position, b.position);
    assert qp == Vector(-pq.x, -pq.y, -pq.z);
    assert Dot(qp, qp) == Dot(pq, pq);
    d := Magnitude(pq);
    assert Magnitude(qp) == d;
    assert PartialSum(u, 0, b.position, 1) == Ok(Zero);
    assert PartialSum(u, 0, b.position, 2) == Ok(Add(Zero, Pull(b.position, c, d)));
    assert PartialSum(u, 1, c.position, 1) == Ok(Add(Zero, Pull(c.position, b, d)));
    assert PartialSum(u, 1, c.position, 2) == PartialSum(u, 1, c.position, 1);
  }

  /** Two bodies pull on each other with opposite forces: the mass-weighted
      accelerations add up to zero (Newton's third law), so the pass keeps
      the total momentum of a pair. */
  lemma TwoBodyActionReaction(b: Body, c: Body)
    requires AccelerationAt([b, c], 0, b.position).Ok?
    ensures AccelerationAt([b, c], 1, c.position).Ok?
    ensures Add(Scale(AccelerationAt([b, c], 0, b.position).value, b.mass),
                Scale(AccelerationAt([b, c], 1, c.position).value, c.mass)) == Zero
  {
    var d := PairAccelerations(b, c);
    var k := d * d * d;
    assert 0.0 < k;
    PairCancels(Sub(b.position, c.position), Sub(c.position, b.position), b.mass, c.mass, k);
    assert Scale(AccelerationAt([b, c], 0, b.position).value, b.mass) == WeightedPull(Sub(b.position, c.position), c.mass, b.mass, k);
    assert Scale(AccelerationAt([b, c], 1, c.position).value, c.mass) == WeightedPull(Sub(c.position, b.position), b.mass, c.mass, k);
  }

  /** Body `j` with its acceleration field set from the universe `u`. */
  function Accelerated(u: seq<Body>, j: nat): Body
    requires j < |u| && AccelerationAt(u, j, u[j].position).Ok?
  {
    u[j].(acceleration := AccelerationAt(u, j, u[j].position).value)
  }

  /** The loop of `computeAcceleration(universe)` from body `i` on, on the
      current state: each body in turn gets the acceleration at its own
      position; "crash!" stops the pass and leaves the bodies before it
      updated. */
  function AccelerationsFrom(u: seq<Body>, i: nat): (r: Run)
    ensures |r.bodies| == |u|
    ensures r.outcome.Fail? ==> r.outcome.error == Crash
    decreases |u| - i
  {
    if i >= |u| then Run(Pass, u)
    else
      match AccelerationAt(u, i, u[i].position)
      case Err(e) => Run(Fail(e), u)
      case Ok(a) => AccelerationsFrom(u[i := u[i].(acceleration := a)], i + 1)
  }

  /** `v` is `u` with exactly the bodies before `k` given their accelerations
      computed on `u` itself. */
  predicate UpdatedBefore(u: seq<Body>, v: seq<Body>, k: nat)
  {
    && |v| == |u| && k <= |u|
    && (forall j :: 0 <= j < k ==> AccelerationAt(u, j, u[j].position).Ok? && v[j] == Accelerated(u, j))
    && (forall j :: k <= j < |u| ==> v[j] == u[j])
  }

  lemma {:induction false} AccelerationsFromAgainstStart(u: seq<Body>, v: seq<Body>, i: nat)
    requires UpdatedBefore(u, v, i)
    ensures var r := AccelerationsFrom(v, i);
      && (r.outcome.Pass? ==> UpdatedBefore(u, r.bodies, |u|))
      && (r.outcome.Fail? ==> exists k :: i <= k < |u| && UpdatedBefore(u, r.bodies, k) && AccelerationAt(u, k, u[k].position).Err?)
    decreases |u| - i
  {
    if i < |u| {
      assert SameSourcesExcept(v, u, i);
      AccelerationReadsOnlySources(v, u, i, v[i].position);
      if AccelerationAt(v, i, v[i].position).Ok? {
        var w := v[i := v[i].(acceleration := AccelerationAt(v, i, v[i].position).value)];
        assert UpdatedBefore(u, w, i + 1);
        AccelerationsFromAgainstStart(u, w, i + 1);
      } else {
        assert UpdatedBefore(u, AccelerationsFrom(v, i).bodies, i);
      }
    }
  }

  /** The order in which the pass visits the bodies does not matter: every
      acceleration is the one computed on the state before the pass, only
      acceleration fields change, and after a crash exactly the bodies
      before the first crashing one have been updated. */
  lemma AccelerationsIndependentOfOrder(u: seq<Body>)
    ensures var r := AccelerationsFrom(u, 0);
      && (r.outcome.Pass? <==> forall j :: 0 <= j < |u| ==> AccelerationAt(u, j, u[j].position).Ok?)
      && (r.outcome.Pass? ==> UpdatedBefore(u, r.bodies, |u|))
      && (r.outcome.Fail? ==> exists k :: 0 <= k < |u| && UpdatedBefore(u, r.bodies, k) && AccelerationAt(u, k, u[k].position).Err?)
  {
    AccelerationsFromAgainstStart(u, u, 0);
  }

  /** Computing the accelerations twice gives what computing them once gives. */
  lemma AccelerationsIdempotent(u: seq<Body>)
    requires AccelerationsFrom(u, 0).outcome.Pass?
    ensures AccelerationsFrom(AccelerationsFrom(u, 0).bodies, 0) == AccelerationsFrom(u, 0)
  {
    var v := AccelerationsFrom(u, 0).bodies;
    AccelerationsIndependentOfOrder(u);
    AccelerationsIndependentOfOrder(v);
    forall j | 0 <= j < |u|
      ensures AccelerationAt(v, j, v[j].position) == AccelerationAt(u, j, u[j].position)
    {
      assert SameSourcesExcept(u, v, j);
      AccelerationReadsOnlySources(u, v, j, u[j].position);
    }
    var w := AccelerationsFrom(v, 0).bodies;
    assert AccelerationsFrom(v, 0).outcome.Pass?;
    assert w == v;
  }

  /** `computeAcceleration(universe)`: stores in every body the acceleration
      at its own position, in universe order. */
  method ComputeAccelerations(u: array<Body>) returns (out: Outcome)
    modifies u
    ensures Run(out, u[..]) == AccelerationsFrom(old(u[..]), 0)
  {
    var i := 0;
    while i < u.Length
      invariant 0 <= i <= u.Length
      invariant AccelerationsFrom(u[..], i) == AccelerationsFrom(old(u[..]), 0)
    {
      var a := AccelerationAt(u[..], i, u[i].position);
      if a.Err? {
        return Fail(a.error);
      }
      u[i] := u[i].(acceleration := a.value);
      i := i + 1;
    }
    out := Pass;
  }
}
