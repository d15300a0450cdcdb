/** A celestial body of universemodel.h and the universe, the ordered list
    of bodies that the integrators advance. */
module Universes {
  import opened Outcomes
  import opened Vectors

  /** A body; `name` and `visibleSizeMultiplier`, which only the user
      interface reads, are not part of this model. */
  datatype Body = Body(position: Vector, velocity: Vector, acceleration: Vector, mass: real, radius: real)

  /** A body with the defaults of universemodel.h: at rest at the origin,
      unit mass and radius. */
  const DefaultBody: Body := Body(Zero, Zero, Zero, 1.0, 1.0)

  /** The outcome of a pass over a universe together with the universe as it
      was left: after an error the bodies already processed stay changed. */
  datatype Run = Run(outcome: Outcome, bodies: seq<Body>)

  /** Two universes that agree on everything the gravity acting on body
      `self` reads: the number of bodies and the positions and masses of all
      bodies other than `self`. */
  predicate SameSourcesExcept(u: seq<Body>, v: seq<Body>, self: int)
  {
    |u| == |v| && forall j :: 0 <= j < |u| && j != self ==> u[j].position == v[j].position && u[j].mass == v[j].mass
  }
}
