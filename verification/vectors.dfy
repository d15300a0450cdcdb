/** The physical vector [x, y, z] of vector.h.

    The C++ class has value semantics: every binary operator copies, so the
    value is a datatype and the binary operators are functions. The compound
    operators (`+=`, `-=`, `*=`, `/=`, `set`, writing through `operator[]`)
    change the fields of the object they are applied to; `VectorObject` is
    that object, and each of its methods is specified by the pure operator.
    Inside a body (a value in a universe) `v += w` is `v := Add(v, w)`. */
module Vectors {
  import opened Outcomes
  import opened Precision

  datatype Vector = Vector(x: real, y: real, z: real)

  /** The default-constructed vector. */
  const Zero: Vector := Vector(0.0, 0.0, 0.0)

  /** Read access `v[op]` (both the const and the non-const form). */
  function Index(v: Vector, op: int): (r: Result<real>)
    ensures r.Ok? <==> 0 <= op < 3
    ensures r.Ok? ==> r.value == [v.x, v.y, v.z][op]
    ensures r.Err? ==> r.error == IndexOutOfRange
  {
    if op == 0 then Ok(v.x)
    else if op == 1 then Ok(v.y)
    else if op == 2 then Ok(v.z)
    else Err(IndexOutOfRange)
  }

  /** Write access `v[op] = value` through the non-const `operator[]`. */
  function SetIndex(v: Vector, op: int, value: real): (r: Result<Vector>)
    ensures r.Ok? <==> 0 <= op < 3
    ensures r.Ok? ==> Index(r.value, op) == Ok(value)
    ensures r.Ok? ==> forall k :: 0 <= k < 3 && k != op ==> Index(r.value, k) == Index(v, k)
    ensures r.Err? ==> r.error == IndexOutOfRange
  {
    if op == 0 then Ok(v.(x := value))
    else if op == 1 then Ok(v.(y := value))
    else if op == 2 then Ok(v.(z := value))
    else Err(IndexOutOfRange)
  }

  /** `==`: every component is `equal` within EPSILON. */
  predicate Eq(v: Vector, w: Vector)
  {
    Equal(v.x, w.x) && Equal(v.y, w.y) && Equal(v.z, w.z)
  }

  /** `!=`: the exact negation of `==`. */
  predicate Neq(v: Vector, w: Vector)
  {
    !Eq(v, w)
  }

  /** `v + w` and `v += w`. */
  function Add(v: Vector, w: Vector): Vector
  {
    Vector(v.x + w.x, v.y + w.y, v.z + w.z)
  }

  /** `v + s`, `s + v` and `v += s`. */
  function AddScalar(v: Vector, s: real): Vector
  {
    Vector(v.x + s, v.y + s, v.z + s)
  }

  /** `v - w` and `v -= w`. */
  function Sub(v: Vector, w: Vector): Vector
  {
    Vector(v.x - w.x, v.y - w.y, v.z - w.z)
  }

  /** `v - s` and `v -= s`. */
  function SubScalar(v: Vector, s: real): Vector
  {
    Vector(v.x - s, v.y - s, v.z - s)
  }

  /** `v * s`, `s * v` and `v *= s`. */
  function Scale(v: Vector, s: real): Vector
  {
    Vector(v.x * s, v.y * s, v.z * s)
  }

  /** Componentwise division by a divisor already known to be non-zero. */
  function Quot(v: Vector, s: real): Vector
    requires s != 0.0
  {
    Vector(v.x / s, v.y / s, v.z / s)
  }

  /** `v / s` and `v /= s`: a zero divisor throws before any component changes. */
  function Div(v: Vector, s: real): (r: Result<Vector>)
    ensures r.Err? <==> s == 0.0
    ensures r.Err? ==> r.error == DivideByZero
    ensures r.Ok? ==> Scale(r.value, s) == v
  {
    if s == 0.0 then Err(DivideByZero) else Ok(Quot(v, s))
  }

  /** `dotproduct`. */
  function Dot(v: Vector, w: Vector): real
  {
    v.x * w.x + v.y * w.y + v.z * w.z
  }

  /** `std::sqrt`, the library square root, taken as an arbitrary fixed
      function; the laws it obeys are stated by `SqrtLaws` and assumed only
      where a lemma says so in its `requires`. */
  const Sqrt: real -> real

  ghost predicate SqrtLaws()
  {
    forall d: real {:trigger Sqrt(d)} :: 0.0 <= d ==> 0.0 <= Sqrt(d) && Sqrt(d) * Sqrt(d) == d
  }

  /** `abs`: the magnitude of a vector. */
  function Magnitude(v: Vector): real
  {
    Sqrt(Dot(v, v))
  }

  lemma DotNonNegative(v: Vector)
    ensures 0.0 <= Dot(v, v)
  {
    assert 0.0 <= v.x * v.x && 0.0 <= v.y * v.y && 0.0 <= v.z * v.z;
  }

  /** With a lawful square root, the magnitude is non-negative and squares to the dot product. */
  lemma MagnitudeLaws(v: Vector)
    requires SqrtLaws()
    ensures 0.0 <= Magnitude(v) && Magnitude(v) * Magnitude(v) == Dot(v, v)
  {
    DotNonNegative(v);
  }

  /** A magnitude below `bound` is the same as a squared magnitude below `bound * bound`,
      so a distance test needs no square root. */
  lemma MagnitudeBelow(v: Vector, bound: real)
    requires SqrtLaws() && 0.0 < bound
    ensures Magnitude(v) < bound <==> Dot(v, v) < bound * bound
  {
    MagnitudeLaws(v);
    var m := Magnitude(v);
    if m < bound {
      calc {
        m * m;
      <=
        m * bound;
      <
        bound * bound;
      }
    } else {
      calc {
        bound * bound;
      <=
        bound * m;
      <=
        m * m;
      }
    }
  }

  /** A vector variable: the object whose fields `xx`, `yy`, `zz` the compound
      operators and `set` change in place. Each method is specified by the
      pure operator it applies. */
  class VectorObject {
    var xx: real
    var yy: real
    var zz: real

    /** The vector the object currently holds. */
    function Value(): Vector
      reads this
    {
      Vector(xx, yy, zz)
    }

    /** `Vector(x, y, z)`; the default constructor is `Vector(0, 0, 0)`. */
    constructor (x: real, y: real, z: real)
      ensures Value() == Vector(x, y, z)
    {
      xx, yy, zz := x, y, z;
    }

    /** `set(x, y, z)`. */
    method Set(x: real, y: real, z: real)
      modifies this
      ensures Value() == Vector(x, y, z)
    {
      xx, yy, zz := x, y, z;
    }

    /** `v[op] = value` through the non-const `operator[]`, which throws for
        an index outside 0..2 before anything is written. */
    method SetAt(op: int, value: real) returns (out: Outcome)
      modifies this
      ensures out == Pass <==> 0 <= op < 3
      ensures out.Fail? ==> out.error == IndexOutOfRange && Value() == old(Value())
      ensures out.Pass? ==> Ok(Value()) == SetIndex(old(Value()), op, value)
    {
      if op == 0 {
        xx := value;
      } else if op == 1 {
        yy := value;
      } else if op == 2 {
        zz := value;
      } else {
        return Fail(IndexOutOfRange);
      }
      out := Pass;
    }

    /** `v += w`. */
    method AddAssign(w: Vector)
      modifies this
      ensures Value() == Add(old(Value()), w)
    {
      xx := xx + w.x;
      yy := yy + w.y;
      zz := zz + w.z;
    }

    /** `v += s`. */
    method AddScalarAssign(s: real)
      modifies this
      ensures Value() == AddScalar(old(Value()), s)
    {
      xx := xx + s;
      yy := yy + s;
      zz := zz + s;
    }

    /** `v -= w`. */
    method SubAssign(w: Vector)
      modifies this
      ensures Value() == Sub(old(Value()), w)
    {
      xx := xx - w.x;
      yy := yy - w.y;
      zz := zz - w.z;
    }

    /** `v -= s`. */
    method SubScalarAssign(s: real)
      modifies this
      ensures Value() == SubScalar(old(Value()), s)
    {
      xx := xx - s;
      yy := yy - s;
      zz := zz - s;
    }

    /** `v *= s`. */
    method MulAssign(s: real)
      modifies this
      ensures Value() == Scale(old(Value()), s)
    {
      xx := xx * s;
      yy := yy * s;
      zz := zz * s;
    }

    /** `v /= s`: a zero divisor throws before any component is modified. */
    method DivAssign(s: real) returns (out: Outcome)
      modifies this
      ensures out.Fail? <==> s == 0.0
      ensures out.Fail? ==> out.error == DivideByZero && Value() == old(Value())
      ensures out.Pass? ==> Ok(Value()) == Div(old(Value()), s)
    {
      if s == 0.0 {
        return Fail(DivideByZero);
      }
      xx := xx / s;
      yy := yy / s;
      zz := zz / s;
      out := Pass;
    }
  }

  // Properties of the operators, as the unit tests of vector.h exercise them.

  lemma EqReflexive(v: Vector)
    ensures Eq(v, v) && !Neq(v, v)
  {
  }

  lemma EqSymmetric(v: Vector, w: Vector)
    ensures Eq(v, w) <==> Eq(w, v)
  {
  }

  lemma AddCommutes(v: Vector, w: Vector)
    ensures Add(v, w) == Add(w, v)
  {
  }

  /** `v - w` undoes `+ w`, and the other way round. */
  lemma SubUndoesAdd(v: Vector, w: Vector)
    ensures Sub(Add(v, w), w) == v && Add(Sub(v, w), w) == v
  {
  }

  lemma SubScalarUndoesAddScalar(v: Vector, s: real)
    ensures SubScalar(AddScalar(v, s), s) == v
  {
  }

  lemma ScaleByZeroAndOne(v: Vector)
    ensures Scale(v, 0.0) == Zero && Scale(v, 1.0) == v
  {
  }

  lemma DivByOne(v: Vector)
    ensures Div(v, 1.0) == Ok(v)
  {
  }

  lemma DotExample()
    ensures Dot(Vector(1.0, 2.0, 3.0), Vector(4.0, -5.0, 6.0)) == 12.0
  {
  }

  lemma DotSymmetric(v: Vector, w: Vector)
    ensures Dot(v, w) == Dot(w, v)
  {
  }
}
