/** The Adams-Bashforth method of orders 4 and 8 (adams-bashforth.cpp)
    once its history is full: each body moves by a weighted sum of its
    velocities over the last `order` steps and speeds up by the weighted sum
    of its accelerations. The start-up steps, taken with the recording
    Runge-Kutta method, are in the `Integrators` module. */
module AdamsBashforthScheme {
  import opened Vectors
  import opened Universes
  import opened Forces
  import opened AdamsConstantsTables
  import opened AdamsSums

  /** A step past the start-up needs `order - 1` frames, each with an item
      for every body. */
  predicate Ready(c: AdamsConstants, history: seq<Frame>, n: nat)
  {
    Shaped(c) && |history| == c.order - 1 && Covers(history, n)
  }

  /** Body `i`'s samples, oldest first: its history, then its current item. */
  function Samples(history: seq<Frame>, i: nat, b: Body): (s: seq<HistoryItem>)
    requires Covers(history, i + 1)
    ensures |s| == |history| + 1 && s[|history|] == Item(b)
    ensures forall k :: 0 <= k < |history| ==> s[k] == history[k][i]
  {
    Column(history, i) + [Item(b)]
  }

  /** Body `i`, whose value is `b`, after an Adams-Bashforth step. */
  function AbBody(c: AdamsConstants, history: seq<Frame>, i: nat, b: Body, h: real): Body
    requires Ready(c, history, i + 1)
  {
    Update(c.b, c.d, Samples(history, i, b), b, h)
  }

  /** The universe after a step; no force is evaluated, so each body's new
      state depends on its own samples only. */
  function AbStep(c: AdamsConstants, history: seq<Frame>, u: seq<Body>, h: real): (r: seq<Body>)
    requires Ready(c, history, |u|)
    ensures |r| == |u|
  {
    seq(|u|, j requires 0 <= j < |u| => AbBody(c, history, j, u[j], h))
  }

  /** The inner loop of `computeStepImplementation` for body `i`: coefficient
      `indexB` from `order - 1` down to 1 meets frame `indexH` from the oldest
      on. */
  method BashforthHistorySums(c: AdamsConstants, history: seq<Frame>, i: nat) returns (sum1: Vector, sum2: Vector)
    requires Valid(c)
    requires Ready(c, history, i + 1)
    ensures sum1 == OldestFirst(c.b[1..], Velocities(Column(history, i)), c.order - 1)
    ensures sum2 == OldestFirst(c.b[1..], Accelerations(Column(history, i)), c.order - 1)
  {
    sum1, sum2 := Zero, Zero;
    var indexH: nat := 0;
    var indexB: nat := c.order - 1;
    while indexB > 0 && indexH < c.order - 1
      invariant indexB + indexH == c.order - 1
      invariant sum1 == OldestFirst(c.b[1..], Velocities(Column(history, i)), indexH)
      invariant sum2 == OldestFirst(c.b[1..], Accelerations(Column(history, i)), indexH)
      decreases indexB
    {
      var coefficient := Bashforth(c, indexB).value;
      sum1 := Add(sum1, Scale(history[indexH][i].velocity, coefficient));
      sum2 := Add(sum2, Scale(history[indexH][i].acc, coefficient));
      indexB := indexB - 1;
      indexH := indexH + 1;
    }
  }

  /** The history sums plus the current sample weighted with coefficient 0
      are the whole predictor sums. */
  lemma PredictorSums(c: AdamsConstants, history: seq<Frame>, i: nat, b: Body)
    requires Ready(c, history, i + 1)
    ensures OldestFirst(c.b, Velocities(Samples(history, i, b)), c.order)
         == Add(OldestFirst(c.b[1..], Velocities(Column(history, i)), c.order - 1), Scale(b.velocity, c.b[0]))
    ensures OldestFirst(c.b, Accelerations(Samples(history, i, b)), c.order)
         == Add(OldestFirst(c.b[1..], Accelerations(Column(history, i)), c.order - 1), Scale(b.acceleration, c.b[0]))
  {
    ProjectionsSnoc(Column(history, i), Item(b));
    LastSample(c.b, Velocities(Column(history, i)), b.velocity);
    LastSample(c.b, Accelerations(Column(history, i)), b.acceleration);
  }

  /** `AdamsBashforth::computeStepImplementation` past the start-up: every
      body is advanced and the frame of the items from before the step
      replaces the oldest frame. */
  method AbStepInPlace(c: AdamsConstants, history: seq<Frame>, u: array<Body>, h: real) returns (newHistory: seq<Frame>)
    requires Valid(c)
    requires Ready(c, history, u.Length)
    modifies u
    ensures u[..] == AbStep(c, history, old(u[..]), h)
    ensures newHistory == Shifted(history, ItemsOf(old(u[..])))
  {
    var state: Frame := [];
    for i := 0 to u.Length
      invariant forall j :: 0 <= j < i ==> u[j] == AbBody(c, history, j, old(u[j]), h)
      invariant forall j :: i <= j < u.Length ==> u[j] == old(u[j])
      invariant state == ItemsOf(old(u[..])[..i])
    {
      state := state + [HistoryItem(u[i].velocity, u[i].acceleration)];
      AbAdvanceBody(c, history, u, i, h);
    }
    assert old(u[..])[..u.Length] == old(u[..]);
    newHistory := (history + [state])[1..];
  }

  /** The body of the loop: body `i` is advanced by the predictor. */
  method AbAdvanceBody(c: AdamsConstants, history: seq<Frame>, u: array<Body>, i: nat, h: real)
    requires Valid(c)
    requires i < u.Length && Ready(c, history, u.Length)
    modifies u
    ensures u[..] == old(u[..])[i := AbBody(c, history, i, old(u[i]), h)]
  {
    var body := u[i];
    var sum1, sum2 := BashforthHistorySums(c, history, i);
    sum1 := Add(sum1, Scale(body.velocity, Bashforth(c, 0).value));
    sum2 := Add(sum2, Scale(body.acceleration, Bashforth(c, 0).value));
    PredictorSums(c, history, i, body);
    body := body.(position := Add(body.position, Scale(Scale(sum1, h), Divisor(c))));
    body := body.(velocity := Add(body.velocity, Scale(Scale(sum2, h), Divisor(c))));
    u[i] := body;
  }

  /** The step is the textbook formula `x += h d sum_j b_j v_(n-j)`,
      `v += h d sum_j b_j a_(n-j)`, where sample `n - j` is `j` steps back. */
  lemma AbIsTextbookFormula(c: AdamsConstants, history: seq<Frame>, i: nat, b: Body, h: real)
    requires Ready(c, history, i + 1)
    ensures var s := Samples(history, i, b);
      && AbBody(c, history, i, b, h).position
         == Add(b.position, Scale(Scale(NewestFirst(c.b, Velocities(s), c.order), h), c.d))
      && AbBody(c, history, i, b, h).velocity
         == Add(b.velocity, Scale(Scale(NewestFirst(c.b, Accelerations(s), c.order), h), c.d))
  {
    var s := Samples(history, i, b);
    CodeOrderIsTextbookSum(c.b, Velocities(s));
    CodeOrderIsTextbookSum(c.b, Accelerations(s));
  }

  /** The coefficients of each order sum to the reciprocal of the divisor,
      so a body whose velocity and acceleration have been the same over the
      whole history moves as the Euler step says: `x += h v`, `v += h a`. */
  lemma AbExactForSteadySamples(c: AdamsConstants, history: seq<Frame>, i: nat, b: Body, h: real)
    requires Ready(c, history, i + 1) && Normalised(c)
    requires forall k :: 0 <= k < |history| ==> history[k][i] == Item(b)
    ensures AbBody(c, history, i, b, h)
         == b.(position := Add(b.position, Scale(b.velocity, h)), velocity := Add(b.velocity, Scale(b.acceleration, h)))
  {
    SteadySamples(history, i, b);
    SteadyUpdate(c.b, c.d, Samples(history, i, b), b, h);
  }

  lemma SteadySamples(history: seq<Frame>, i: nat, b: Body)
    requires Covers(history, i + 1)
    requires forall k :: 0 <= k < |history| ==> history[k][i] == Item(b)
    ensures AllEqual(Samples(history, i, b), Item(b))
  {
    var s := Samples(history, i, b);
    forall q | 0 <= q < |s|
      ensures s[q] == Item(b)
    {
      if q < |history| {
        assert s[q] == history[q][i];
      }
    }
  }

  /** The step keeps the history ready for the next one: still `order - 1`
      frames covering every body, the newest being the items from before the
      step, and the other bodies' data untouched. */
  lemma AbKeepsReady(c: AdamsConstants, history: seq<Frame>, u: seq<Body>, h: real)
    requires Ready(c, history, |u|)
    ensures Ready(c, Shifted(history, ItemsOf(u)), |u|)
    ensures Shifted(history, ItemsOf(u))[c.order - 2] == ItemsOf(u)
    ensures forall j :: 0 <= j < |u| ==> AbStep(c, history, u, h)[j].acceleration == u[j].acceleration
    ensures forall j :: 0 <= j < |u| ==> AbStep(c, history, u, h)[j].mass == u[j].mass
  {
    var r := Shifted(history, ItemsOf(u));
    forall k | 0 <= k < |r|
      ensures |u| <= |r[k]|
    {
      if k < |r| - 1 {
        assert r[k] == r[..|r| - 1][k] == history[k + 1];
      }
    }
  }
}
