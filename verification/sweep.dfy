/** The loop shape shared by the integrators that evaluate forces while
    they advance: `for(auto& body : *universe)` updating each body in place,
    so a force evaluation for body `i` sees the bodies before `i` already
    advanced. An exception thrown for body `i` ends the loop and leaves the
    bodies before `i` advanced, body `i` as far as it got, and the rest as
    they were. */
module Sweeps {
  import opened Outcomes
  import opened Universes

  /** What happens to the body being processed: it is advanced, or the
      step stops with an error, leaving the body as `partial`. */
  datatype BodyStep = Advanced(body: Body) | Stopped(error: Error, partial: Body)

  /** One iteration of the loop: from the current universe, the index of
      the body and the body itself, what becomes of that body. */
  type Stepper = (seq<Body>, nat, Body) --> BodyStep

  /** The iteration can be run on every body of a universe of `n` bodies. */
  ghost predicate Applicable(step: Stepper, n: nat)
  {
    forall w: seq<Body>, j: nat, b: Body {:trigger step.requires(w, j, b)} :: |w| == n && j < n ==> step.requires(w, j, b)
  }

  /** The end of a loop: the outcome, the universe as it was left, and the
      index of the body the loop stopped at (the number of bodies when it
      ran to the end). */
  datatype Swept = Swept(outcome: Outcome, bodies: seq<Body>, stop: nat)

  /** The loop from body `i` on, on the current state. */
  function SweepFrom(step: Stepper, u: seq<Body>, i: nat): (r: Swept)
    requires Applicable(step, |u|) && i <= |u|
    ensures |r.bodies| == |u| && i <= r.stop <= |u|
    ensures r.outcome.Pass? <==> r.stop == |u|
    decreases |u| - i
  {
    if i == |u| then Swept(Pass, u, |u|)
    else
      match step(u, i, u[i])
      case Stopped(e, b) => Swept(Fail(e), u[i := b], i)
      case Advanced(b) => SweepFrom(step, u[i := b], i + 1)
  }

  /** The state in which body `i` is processed: the bodies before it as the
      loop left them, the others as they were at the start. */
  function StateAt(u: seq<Body>, r: seq<Body>, i: nat): seq<Body>
    requires i <= |u| == |r|
  {
    r[..i] + u[i..]
  }

  /** `r` is what the loop leaves when run from the start state `u`: every
      body before `stop` was advanced by an iteration that saw the earlier
      bodies advanced and the later ones not, and after a stop the body at
      `stop` is the partial one and the rest are untouched. */
  ghost predicate Explains(step: Stepper, u: seq<Body>, r: Swept)
    requires Applicable(step, |u|)
  {
    && |r.bodies| == |u| && r.stop <= |u|
    && (forall i :: 0 <= i < r.stop ==> step(StateAt(u, r.bodies, i), i, u[i]) == Advanced(r.bodies[i]))
    && (r.outcome.Pass? <==> r.stop == |u|)
    && (r.outcome.Fail? ==>
          && step(StateAt(u, r.bodies, r.stop), r.stop, u[r.stop]) == Stopped(r.outcome.error, r.bodies[r.stop])
          && r.bodies[r.stop + 1..] == u[r.stop + 1..])
  }

  lemma {:induction false} SweepFromExplained(step: Stepper, u: seq<Body>, w: seq<Body>, k: nat)
    requires Applicable(step, |u|) && |w| == |u| && k <= |u| && w[k..] == u[k..]
    ensures var r := SweepFrom(step, w, k);
      && r.bodies[..k] == w[..k]
      && (forall i :: k <= i < r.stop ==> step(StateAt(u, r.bodies, i), i, u[i]) == Advanced(r.bodies[i]))
      && (r.outcome.Fail? ==>
            && step(StateAt(u, r.bodies, r.stop), r.stop, u[r.stop]) == Stopped(r.outcome.error, r.bodies[r.stop])
            && r.bodies[r.stop + 1..] == u[r.stop + 1..])
    decreases |u| - k
  {
    if k < |u| {
      assert w[k] == u[k] by { assert w[k..][0] == u[k..][0]; }
      assert w == w[..k] + u[k..] by { assert w == w[..k] + w[k..]; }
      match step(w, k, w[k])
      case Stopped(e, b) =>
        var r := SweepFrom(step, w, k);
        assert r.bodies == w[k := b];
        assert r.bodies[..k] == w[..k];
        assert StateAt(u, r.bodies, k) == w;
        assert r.bodies[k + 1..] == u[k + 1..] by {
          assert r.bodies[k + 1..] == w[k + 1..] == w[k..][1..];
        }
      case Advanced(b) =>
        var w2 := w[k := b];
        assert w2[k + 1..] == u[k + 1..] by {
          assert w2[k + 1..] == w[k + 1..] == w[k..][1..];
        }
        SweepFromExplained(step, u, w2, k + 1);
        var r := SweepFrom(step, w2, k + 1);
        assert SweepFrom(step, w, k) == r;
        assert r.bodies[..k] == w[..k] by {
          assert r.bodies[..k] == r.bodies[..k + 1][..k];
          assert w2[..k + 1][..k] == w[..k];
        }
        assert r.bodies[k] == b by { assert r.bodies[..k + 1][k] == w2[..k + 1][k]; }
        assert StateAt(u, r.bodies, k) == w;
    }
  }

  /** The loop is explained by its iterations: this is the sense in which
      the bodies are advanced "in place, one after another". */
  lemma SweepExplained(step: Stepper, u: seq<Body>)
    requires Applicable(step, |u|)
    ensures Explains(step, u, SweepFrom(step, u, 0))
  {
    SweepFromExplained(step, u, u, 0);
  }
}
