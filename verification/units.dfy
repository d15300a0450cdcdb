/** Unit conversion of the project loader (projectparser.h, projectparser.cpp):
    a value is first brought to metres (or seconds), then divided by the size
    of the target unit. The vector overloads do the work; the scalar ones
    convert `Vector(value, 0, 0)` and keep its first component. Both the
    code as written and the conversion it evidently means are modelled. */
module Units {
  import opened Vectors

  datatype LengthUnit = Meter | Km | Au
  datatype TimeUnit = Sec | Day

  /** `ASTRON_UNITS`: metres in one astronomical unit. */
  const ASTRON_UNITS: real := 149597870700.0

  /** The factor the code uses for `TimeUnit::DAY`. */
  const WRITTEN_DAY: real := 3600.0

  /** Seconds in a day. */
  const SECONDS_PER_DAY: real := 86400.0

  /** Metres in one of `unit`. */
  function MetersPer(unit: LengthUnit): (r: real)
    ensures r > 0.0
    ensures unit == Meter <==> r == 1.0
  {
    match unit
    case Meter => 1.0
    case Km => 1000.0
    case Au => ASTRON_UNITS
  }

  /** The first half of every length conversion: the value in metres. */
  function ToMeters(v: Vector, from: LengthUnit): (r: Vector)
    ensures r == Scale(v, MetersPer(from))
  {
    if from == Km then Scale(v, 1000.0)
    else if from == Au then Scale(v, ASTRON_UNITS)
    else v
  }

  /** `convertUnits(Vector, LengthUnit, LengthUnit)` as written: the second
      branch tests the source unit where the target unit is meant. */
  function ConvertLengthAsWritten(v: Vector, from: LengthUnit, to: LengthUnit): Vector
  {
    var m := ToMeters(v, from);
    if to == Km then Quot(m, 1000.0)
    else if from == Au then Quot(m, ASTRON_UNITS)
    else m
  }

  /** The slip at work: astronomical units come back unchanged when metres
      are asked for. */
  lemma AuToMetersUnchanged()
    ensures ConvertLengthAsWritten(Vector(1.0, 0.0, 0.0), Au, Meter) == Vector(1.0, 0.0, 0.0)
  {
    assert ToMeters(Vector(1.0, 0.0, 0.0), Au) == Vector(ASTRON_UNITS, 0.0, 0.0);
  }

  /** Metres come back unchanged when astronomical units are asked for. */
  lemma MetersToAuUnchanged()
    ensures ConvertLengthAsWritten(Vector(ASTRON_UNITS, 0.0, 0.0), Meter, Au) == Vector(ASTRON_UNITS, 0.0, 0.0)
  {
  }

  /** Kilometres turn into metres when astronomical units are asked for. */
  lemma KmToAuGivesMeters()
    ensures ConvertLengthAsWritten(Vector(1.0, 0.0, 0.0), Km, Au) == Vector(1000.0, 0.0, 0.0)
  {
  }

  /** The intended conversion of one astronomical unit gives its metres. */
  lemma AuToMeters()
    ensures ConvertLength(Vector(1.0, 0.0, 0.0), Au, Meter) == Vector(ASTRON_UNITS, 0.0, 0.0)
  {
  }

  /** The code as written agrees with the intended conversion whenever
      neither side is the astronomical unit, or both are. */
  lemma AsWrittenAgreesAwayFromAu(v: Vector, from: LengthUnit, to: LengthUnit)
    requires (from == Au) == (to == Au)
    ensures ConvertLengthAsWritten(v, from, to) == ConvertLength(v, from, to)
  {
  }

  /** `convertUnits(Vector, LengthUnit, LengthUnit)` with the target unit
      tested in the second branch: metres divided by the target's size. */
  function ConvertLength(v: Vector, from: LengthUnit, to: LengthUnit): Vector
  {
    var m := ToMeters(v, from);
    if to == Km then Quot(m, 1000.0)
    else if to == Au then Quot(m, ASTRON_UNITS)
    else m
  }

  /** The result, measured in the target unit, is the value in metres. */
  lemma ConvertLengthKeepsMeters(v: Vector, from: LengthUnit, to: LengthUnit)
    ensures Scale(ConvertLength(v, from, to), MetersPer(to)) == ToMeters(v, from)
  {
  }

  /** Converting to the same unit changes nothing. */
  lemma ConvertLengthSameUnit(v: Vector, unit: LengthUnit)
    ensures ConvertLength(v, unit, unit) == v
  {
    ScaleCancels(v, MetersPer(unit));
  }

  /** Converting there and back gives the value back. */
  lemma ConvertLengthRoundTrip(v: Vector, a: LengthUnit, b: LengthUnit)
    ensures ConvertLength(ConvertLength(v, a, b), b, a) == v
  {
    var w := ConvertLength(v, a, b);
    assert ToMeters(w, b) == Scale(w, MetersPer(b));
    ScaleCancels(v, MetersPer(a));
  }

  /** Converting in two steps is converting in one. */
  lemma ConvertLengthComposes(v: Vector, a: LengthUnit, b: LengthUnit, c: LengthUnit)
    ensures ConvertLength(ConvertLength(v, a, b), b, c) == ConvertLength(v, a, c)
  {
  }

  /** `x * s / s == x` componentwise, for a non-zero `s`. */
  lemma ScaleCancels(v: Vector, s: real)
    requires s != 0.0
    ensures Quot(Scale(v, s), s) == v
  {
  }

  /** `convertUnits(DOUBLE, LengthUnit, LengthUnit)` as written: the first
      component of `Vector(value, 0, 0)` converted by the vector overload as
      written. It agrees with the intended conversion except in the two
      cases the slip in the vector overload reaches. */
  function ConvertLengthScalarAsWritten(value: real, from: LengthUnit, to: LengthUnit): (r: real)
    ensures from == Au && to == Meter ==> r == value
    ensures from != Au && to == Au ==> r == value * MetersPer(from)
    ensures !(from == Au && to == Meter) && !(from != Au && to == Au) ==> r == ConvertLengthScalar(value, from, to)
  {
    FirstComponentConverts(value, from, to);
    ConvertLengthAsWritten(Vector(value, 0.0, 0.0), from, to).x
  }

  /** The radius of a body given in astronomical units stays a number of
      astronomical units when metres are asked for. */
  lemma RadiusStaysInAu()
    ensures ConvertLengthScalarAsWritten(1.0, Au, Meter) == 1.0
    ensures ConvertLengthScalar(1.0, Au, Meter) == ASTRON_UNITS
  {
  }

  /** `convertUnits(DOUBLE, LengthUnit, LengthUnit)` with the corrected
      vector overload: the first component of the converted
      `Vector(value, 0, 0)`. */
  function ConvertLengthScalar(value: real, from: LengthUnit, to: LengthUnit): (r: real)
    ensures r == value * MetersPer(from) / MetersPer(to)
  {
    FirstComponentConverts(value, from, to);
    ConvertLength(Vector(value, 0.0, 0.0), from, to).x
  }

  lemma FirstComponentConverts(value: real, from: LengthUnit, to: LengthUnit)
    ensures ConvertLength(Vector(value, 0.0, 0.0), from, to).x == value * MetersPer(from) / MetersPer(to)
  {
    assert ToMeters(Vector(value, 0.0, 0.0), from).x == value * MetersPer(from);
  }

  /** Seconds in one of `unit`, with the day the code uses. */
  function WrittenSecondsPer(unit: TimeUnit): real
  {
    match unit
    case Sec => 1.0
    case Day => WRITTEN_DAY
  }

  /** `convertUnits(Vector, TimeUnit, TimeUnit)` as written: a day is taken
      to be 3600 seconds. */
  function ConvertTimeAsWritten(v: Vector, from: TimeUnit, to: TimeUnit): Vector
  {
    var s := if from == Day then Scale(v, WRITTEN_DAY) else v;
    if to == Day then Quot(s, WRITTEN_DAY) else s
  }

  /** One day converts to an hour's worth of seconds as written. */
  lemma DayIsAnHour()
    ensures ConvertTimeAsWritten(Vector(1.0, 0.0, 0.0), Day, Sec) == Vector(3600.0, 0.0, 0.0)
  {
  }

  /** The intended conversion gives twenty-four hours for a day. */
  lemma DayIsADay()
    ensures ConvertTime(Vector(1.0, 0.0, 0.0), Day, Sec) == Vector(24.0 * 3600.0, 0.0, 0.0)
  {
  }

  /** Seconds in one of `unit`. */
  function SecondsPer(unit: TimeUnit): (r: real)
    ensures r > 0.0
    ensures unit == Sec <==> r == 1.0
    ensures unit == Day ==> r == 24.0 * 60.0 * 60.0
  {
    match unit
    case Sec => 1.0
    case Day => SECONDS_PER_DAY
  }

  /** `convertUnits(Vector, TimeUnit, TimeUnit)` with a day of 86400
      seconds: seconds divided by the target's size. */
  function ConvertTime(v: Vector, from: TimeUnit, to: TimeUnit): Vector
  {
    var s := if from == Day then Scale(v, SECONDS_PER_DAY) else v;
    if to == Day then Quot(s, SECONDS_PER_DAY) else s
  }

  /** The result, measured in the target unit, is the value in seconds. */
  lemma ConvertTimeKeepsSeconds(v: Vector, from: TimeUnit, to: TimeUnit)
    ensures Scale(ConvertTime(v, from, to), SecondsPer(to)) == Scale(v, SecondsPer(from))
  {
  }

  /** Converting time there and back gives the value back. */
  lemma ConvertTimeRoundTrip(v: Vector, a: TimeUnit, b: TimeUnit)
    ensures ConvertTime(ConvertTime(v, a, b), b, a) == v
  {
  }

  /** Both the written and the intended time conversion change nothing
      between equal units, and differ only in the size of the day. */
  lemma TimeConversionsDifferOnlyInTheDay(v: Vector, from: TimeUnit, to: TimeUnit)
    ensures from == to ==> ConvertTimeAsWritten(v, from, to) == v && ConvertTime(v, from, to) == v
    ensures Scale(ConvertTimeAsWritten(v, from, to), WrittenSecondsPer(to)) == Scale(v, WrittenSecondsPer(from))
  {
  }

  /** `convertUnits(DOUBLE, TimeUnit, TimeUnit)` as written: the first
      component of `Vector(value, 0, 0)` converted with a 3600-second day. */
  function ConvertTimeScalarAsWritten(value: real, from: TimeUnit, to: TimeUnit): (r: real)
    ensures r == value * WrittenSecondsPer(from) / WrittenSecondsPer(to)
    ensures from == to ==> r == value
    ensures from == Day && to == Sec ==> r == ConvertTimeScalar(value, from, to) / 24.0
    ensures from == Sec && to == Day ==> r == ConvertTimeScalar(value, from, to) * 24.0
  {
    ConvertTimeAsWritten(Vector(value, 0.0, 0.0), from, to).x
  }

  /** `convertUnits(DOUBLE, TimeUnit, TimeUnit)` with a day of 86400
      seconds. */
  function ConvertTimeScalar(value: real, from: TimeUnit, to: TimeUnit): (r: real)
    ensures r == value * SecondsPer(from) / SecondsPer(to)
  {
    ConvertTime(Vector(value, 0.0, 0.0), from, to).x
  }
}
