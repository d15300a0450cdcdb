/** The closed set of integration schemes of types.h, their numeric codes
    and the two name tables indexed by those codes. */
module AlgorithmTypes {
  import opened Outcomes

  datatype Type = Euler | Leapfrog | Rk4 | Ab4 | Ab8 | Abm4 | Abm8

  /** Number of enumerators. */
  const TYPE_COUNT: nat := 7

  /** The algorithm used when none is chosen. */
  const DEFAULT_TYPE: Type := Rk4

  /** The enumerator's value: declaration order, starting at 0. */
  function Code(t: Type): (c: nat)
    ensures c < TYPE_COUNT
  {
    match t
    case Euler => 0
    case Leapfrog => 1
    case Rk4 => 2
    case Ab4 => 3
    case Ab8 => 4
    case Abm4 => 5
    case Abm8 => 6
  }

  /** The enumerator with value `c`, if there is one. */
  function FromCode(c: int): (r: Option<Type>)
    ensures r.Some? <==> 0 <= c < TYPE_COUNT
    ensures r.Some? ==> Code(r.value) == c
  {
    if c == 0 then Some(Euler)
    else if c == 1 then Some(Leapfrog)
    else if c == 2 then Some(Rk4)
    else if c == 3 then Some(Ab4)
    else if c == 4 then Some(Ab8)
    else if c == 5 then Some(Abm4)
    else if c == 6 then Some(Abm8)
    else None
  }

  /** Code and FromCode are inverse: every enumerator round-trips. */
  lemma CodeRoundTrip(t: Type)
    ensures FromCode(Code(t)) == Some(t)
  {
  }

  /** Two enumerators with the same value are the same enumerator. */
  lemma CodeInjective(s: Type, t: Type)
    ensures Code(s) == Code(t) ==> s == t
  {
    CodeRoundTrip(s);
    CodeRoundTrip(t);
  }

  /** `typeName`, indexed by the enumerator's value. */
  const TYPE_NAMES: seq<string> := [
    "Euler Method",
    "Leapfrog",
    "Runge-Kutta 4",
    "Adams-Bashforth 4",
    "Adams-Bashforth 8",
    "Adams predictor-corrector 4",
    "Adams predictor-corrector 8"
  ]

  /** `shortTypeName`, indexed by the enumerator's value. */
  const SHORT_TYPE_NAMES: seq<string> := ["euler", "leapfrog", "rk4", "ab4", "ab8", "abm4", "abm8"]

  /** The display name of a scheme; the tables have one entry per enumerator. */
  function TypeName(t: Type): (name: string)
    ensures |TYPE_NAMES| == TYPE_COUNT && name == TYPE_NAMES[Code(t)]
  {
    TYPE_NAMES[Code(t)]
  }

  /** The short (command line) name of a scheme. */
  function ShortTypeName(t: Type): (name: string)
    ensures |SHORT_TYPE_NAMES| == TYPE_COUNT && name == SHORT_TYPE_NAMES[Code(t)]
  {
    SHORT_TYPE_NAMES[Code(t)]
  }

  /** The scheme whose short name is `name`, looked up in table order. */
  function ParseShortName(name: string): (r: Option<Type>)
    ensures r.Some? ==> ShortTypeName(r.value) == name
    ensures r.None? ==> forall t: Type :: ShortTypeName(t) != name
  {
    ParseFrom(name, 0)
  }

  function ParseFrom(name: string, i: nat): (r: Option<Type>)
    requires i <= TYPE_COUNT
    ensures r.Some? ==> ShortTypeName(r.value) == name
    ensures r.None? ==> forall t: Type :: Code(t) >= i ==> ShortTypeName(t) != name
    decreases TYPE_COUNT - i
  {
    if i == TYPE_COUNT then None
    else if SHORT_TYPE_NAMES[i] == name then FromCode(i)
    else ParseFrom(name, i + 1)
  }

  /** The short names are pairwise distinct, so parsing a short name gives
      back the scheme it names: the table can be used to read arguments. */
  lemma ShortNameRoundTrip(t: Type)
    ensures ParseShortName(ShortTypeName(t)) == Some(t)
  {
    var r := ParseShortName(ShortTypeName(t));
    assert r.Some?;
    assert ShortTypeName(r.value) == ShortTypeName(t);
    CodeInjective(r.value, t);
  }
}
