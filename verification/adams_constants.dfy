/** The coefficient tables of the Adams-Bashforth (explicit) and
    Adams-Moulton (implicit) multistep formulas of orders 4 and 8
    (constants.cpp). A formula's weighted sum is multiplied by the divisor. */
module AdamsConstantsTables {
  import opened Outcomes

  const B8: seq<real> := [434241.0, -1152169.0, 2183877.0, -2664477.0, 2102243.0, -1041723.0, 295767.0, -36799.0]
  const M8: seq<real> := [36799.0, 139849.0, -121797.0, 123133.0, -88547.0, 41499.0, -11351.0, 1375.0]
  const D8: real := 1.0 / 120960.0

  const B4: seq<real> := [55.0, -59.0, 37.0, -9.0]
  const M4: seq<real> := [9.0, 19.0, -5.0, 1.0]
  const D4: real := 1.0 / 24.0

  /** An `AdamsConstants` object: the order it was built for and the tables
      that order selected. */
  datatype AdamsConstants = AdamsConstants(order: nat, b: seq<real>, m: seq<real>, d: real)

  /** The only orders with tables. */
  predicate SupportedOrder(order: int)
  {
    order == 4 || order == 8
  }

  /** The tables of an object correspond to its order. */
  predicate Valid(c: AdamsConstants)
  {
    && SupportedOrder(c.order)
    && (c.order == 4 ==> c.b == B4 && c.m == M4 && c.d == D4)
    && (c.order == 8 ==> c.b == B8 && c.m == M8 && c.d == D8)
  }

  /** What makes the multistep formulas exact for constant derivatives: a
      shaped object whose coefficients add up to the reciprocal of the
      divisor. Every valid object is one
      (`ValidSums`). */
  predicate Normalised(c: AdamsConstants)
  {
    Shaped(c) && Sum(c.b) * c.d == 1.0 && Sum(c.m) * c.d == 1.0
  }

  /** An order with tables and one coefficient per sample in each table. */
  predicate Shaped(c: AdamsConstants)
  {
    SupportedOrder(c.order) && |c.b| == c.order && |c.m| == c.order
  }

  /** Sum of a table. */
  function Sum(s: seq<real>): real
  {
    if |s| == 0 then 0.0 else s[0] + Sum(s[1..])
  }

  /** The entries of every table add up to the reciprocal of its divisor,
      so each formula reproduces a constant derivative exactly. */
  lemma TableSums()
    ensures Sum(B4) == 24.0 && Sum(M4) == 24.0
    ensures Sum(B8) == 120960.0 && Sum(M8) == 120960.0
    ensures Sum(B4) * D4 == 1.0 && Sum(M4) * D4 == 1.0
    ensures Sum(B8) * D8 == 1.0 && Sum(M8) * D8 == 1.0
  {
    OrderFourSums();
    OrderEightSums();
  }

  lemma {:induction false} OrderFourSums()
    ensures Sum(B4) == 24.0 && Sum(M4) == 24.0
  {
    SumFromBack(B4, 0);
    SumFromBack(M4, 0);
    assert SumFromEnd(B4, 0) == 24.0;
    assert SumFromEnd(M4, 0) == 24.0;
  }

  lemma {:induction false} OrderEightSums()
    ensures Sum(B8) == 120960.0 && Sum(M8) == 120960.0
  {
    SumFromBack(B8, 0);
    SumFromBack(M8, 0);
    assert SumFromEnd(B8, 0) == 120960.0;
    assert SumFromEnd(M8, 0) == 120960.0;
  }

  /** `Sum(s[i..])`, with the index as the argument of the recursion. */
  function SumFromEnd(s: seq<real>, i: nat): real
    requires i <= |s|
    decreases |s| - i
  {
    if i == |s| then 0.0 else s[i] + SumFromEnd(s, i + 1)
  }

  lemma {:induction false} SumFromBack(s: seq<real>, i: nat)
    requires i <= |s|
    ensures Sum(s[i..]) == SumFromEnd(s, i)
    decreases |s| - i
  {
    if i < |s| {
      SumFromBack(s, i + 1);
      assert s[i..][1..] == s[i + 1..];
    }
  }

  /** The constructor: only orders 4 and 8 are accepted (an assertion in the
      source); the tables of that order are selected. */
  function Make(order: nat): (c: AdamsConstants)
    requires SupportedOrder(order)
    ensures Valid(c) && Normalised(c) && c.order == order
  {
    TableSums();
    if order == 8 then AdamsConstants(8, B8, M8, D8) else AdamsConstants(4, B4, M4, D4)
  }

  /** Every valid object's formulas are exact for a constant derivative. */
  lemma ValidSums(c: AdamsConstants)
    requires Valid(c)
    ensures Normalised(c)
  {
    if c.order == 4 {
      OrderFourSums();
      assert c.b == B4 && c.m == M4 && c.d == D4;
    } else {
      OrderEightSums();
      assert c.b == B8 && c.m == M8 && c.d == D8;
    }
  }

  /** `bashforth(index)`: the explicit coefficient, or an error for an index
      that is not below the order. */
  function Bashforth(c: AdamsConstants, index: nat): (r: Result<real>)
    requires Valid(c)
    ensures r.Ok? <==> index < c.order
    ensures r.Ok? ==> r.value == (if c.order == 4 then B4 else B8)[index]
    ensures r.Err? ==> r.error == CoefficientIndex
  {
    if index >= c.order then Err(CoefficientIndex) else Ok(c.b[index])
  }

  /** `moulton(index)`: the implicit coefficient, or an error for an index
      that is not below the order. */
  function Moulton(c: AdamsConstants, index: nat): (r: Result<real>)
    requires Valid(c)
    ensures r.Ok? <==> index < c.order
    ensures r.Ok? ==> r.value == (if c.order == 4 then M4 else M8)[index]
    ensures r.Err? ==> r.error == CoefficientIndex
  {
    if index >= c.order then Err(CoefficientIndex) else Ok(c.m[index])
  }

  /** `divisor()`: the divisor of the order chosen at construction. */
  function Divisor(c: AdamsConstants): (d: real)
    requires Valid(c)
    ensures d == 1.0 / (if c.order == 4 then 24.0 else 120960.0)
    ensures 0.0 < d
  {
    c.d
  }

  /** The order-4 object holds the classical fourth-order coefficients. */
  lemma OrderFourTables()
    ensures Bashforth(Make(4), 0) == Ok(55.0) && Bashforth(Make(4), 3) == Ok(-9.0)
    ensures Moulton(Make(4), 0) == Ok(9.0) && Moulton(Make(4), 1) == Ok(19.0)
    ensures Bashforth(Make(4), 4).Err? && Moulton(Make(4), 4).Err?
    ensures Divisor(Make(4)) * 24.0 == 1.0
  {
  }
}
