/** The weighted sums of the Adams methods (adams-bashforth.cpp, abm.cpp).
    The inner loops run through a body's history from the oldest frame to
    the newest and weight the sample `q` of `n` samples with coefficient
    `n - 1 - q`, so the newest sample meets coefficient 0. */
module AdamsSums {
  import opened Vectors
  import opened Universes
  import opened Forces
  import opened AdamsConstantsTables

  /** The frames of a history hold an item for each of the first `n` bodies. */
  predicate Covers(history: seq<Frame>, n: nat)
  {
    forall k :: 0 <= k < |history| ==> n <= |history[k]|
  }

  /** A history after `push_back(frame)` and `pop_front()`. */
  function Shifted(history: seq<Frame>, frame: Frame): (r: seq<Frame>)
    ensures |history| >= 1 ==> |r| == |history| && r[|r| - 1] == frame
    ensures |history| >= 1 ==> r[..|r| - 1] == history[1..]
  {
    (history + [frame])[1..]
  }

  /** The items of body `i` through the history, oldest first. */
  function Column(history: seq<Frame>, i: nat): (c: seq<HistoryItem>)
    requires Covers(history, i + 1)
    ensures |c| == |history| && forall k :: 0 <= k < |history| ==> c[k] == history[k][i]
  {
    seq(|history|, k requires 0 <= k < |history| => history[k][i])
  }

  function Velocities(items: seq<HistoryItem>): (vs: seq<Vector>)
    ensures |vs| == |items| && forall k :: 0 <= k < |items| ==> vs[k] == items[k].velocity
  {
    seq(|items|, k requires 0 <= k < |items| => items[k].velocity)
  }

  function Accelerations(items: seq<HistoryItem>): (accs: seq<Vector>)
    ensures |accs| == |items| && forall k :: 0 <= k < |items| ==> accs[k] == items[k].acc
  {
    seq(|items|, k requires 0 <= k < |items| => items[k].acc)
  }

  lemma ProjectionsSnoc(items: seq<HistoryItem>, x: HistoryItem)
    ensures Velocities(items + [x]) == Velocities(items) + [x.velocity]
    ensures Accelerations(items + [x]) == Accelerations(items) + [x.acc]
  {
  }

  /** `h * sum * divisor` for the samples `f`, oldest first. */
  function Increment(w: seq<real>, f: seq<Vector>, h: real, d: real): Vector
    requires |f| <= |w|
  {
    Scale(Scale(OldestFirst(w, f, |f|), h), d)
  }

  /** The sum over the first `c` samples as the code accumulates it: oldest
      first, sample `q` weighted with `w[|f| - 1 - q]`. */
  function OldestFirst(w: seq<real>, f: seq<Vector>, c: nat): Vector
    requires c <= |f| <= |w|
  {
    if c == 0 then Zero else Add(OldestFirst(w, f, c - 1), Scale(f[c - 1], w[|f| - c]))
  }

  /** The textbook form of the same sum, over the `k` newest samples:
      coefficient `j` times the sample `j` steps back. */
  function NewestFirst(w: seq<real>, f: seq<Vector>, k: nat): Vector
    requires k <= |f| <= |w|
  {
    if k == 0 then Zero else Add(NewestFirst(w, f, k - 1), Scale(f[|f| - k], w[k - 1]))
  }

  /** Appending a newer sample shifts the coefficients of the older ones
      by one. */
  lemma {:induction false} ShiftedWeights(w: seq<real>, f: seq<Vector>, x: Vector, c: nat)
    requires c <= |f| && |f| + 1 <= |w|
    ensures OldestFirst(w, f + [x], c) == OldestFirst(w[1..], f, c)
    decreases c
  {
    if c > 0 {
      ShiftedWeights(w, f, x, c - 1);
      assert (f + [x])[c - 1] == f[c - 1];
      assert w[|f| + 1 - c] == w[1..][|f| - c];
    }
  }

  /** The loops first sum the history with the coefficients from 1 on, then
      add the newest sample with coefficient 0. */
  lemma LastSample(w: seq<real>, f: seq<Vector>, x: Vector)
    requires |f| + 1 <= |w|
    ensures OldestFirst(w, f + [x], |f| + 1) == Add(OldestFirst(w[1..], f, |f|), Scale(x, w[0]))
  {
    ShiftedWeights(w, f, x, |f|);
    assert (f + [x])[|f|] == x;
  }

  /** The oldest `c` samples and the newest `|f| - c` make up the whole sum. */
  lemma {:induction false} SplitSum(w: seq<real>, f: seq<Vector>, c: nat)
    requires c <= |f| <= |w|
    ensures Add(OldestFirst(w, f, c), NewestFirst(w, f, |f| - c)) == NewestFirst(w, f, |f|)
    decreases c
  {
    if c > 0 {
      SplitSum(w, f, c - 1);
    }
  }

  /** The loops compute the Adams formula `sum_j w[j] * f_(n-j)`. */
  lemma CodeOrderIsTextbookSum(w: seq<real>, f: seq<Vector>)
    requires |f| <= |w|
    ensures OldestFirst(w, f, |f|) == NewestFirst(w, f, |f|)
  {
    SplitSum(w, f, |f|);
  }

  /** Every sample is `x`. */
  predicate AllEqual(s: seq<HistoryItem>, x: HistoryItem)
  {
    forall q :: 0 <= q < |s| ==> s[q] == x
  }

  /** A body after an Adams formula with coefficients `w` and divisor `d`
      over its samples `s`, oldest first: `x += h d sum(w, velocities)`,
      `v += h d sum(w, accelerations)`. */
  function Update(w: seq<real>, d: real, s: seq<HistoryItem>, b: Body, h: real): Body
    requires |s| <= |w|
  {
    b.(position := Add(b.position, Increment(w, Velocities(s), h, d)),
       velocity := Add(b.velocity, Increment(w, Accelerations(s), h, d)))
  }

  /** A formula whose coefficients sum to `1 / d`, applied to samples that
      all equal the body's own item, is an Euler step. */
  lemma SteadyUpdate(w: seq<real>, d: real, s: seq<HistoryItem>, b: Body, h: real)
    requires |s| == |w| && Sum(w) * d == 1.0
    requires AllEqual(s, Item(b))
    ensures Update(w, d, s, b, h)
         == b.(position := Add(b.position, Scale(b.velocity, h)), velocity := Add(b.velocity, Scale(b.acceleration, h)))
  {
    ExactForSteadyItems(w, s, Item(b), h, d);
  }

  /** Items that are all `x` give the increments `h x.velocity` and
      `h x.acc` under a formula whose coefficients sum to `1 / d`. */
  lemma ExactForSteadyItems(w: seq<real>, s: seq<HistoryItem>, x: HistoryItem, h: real, d: real)
    requires |s| == |w| && Sum(w) * d == 1.0
    requires AllEqual(s, x)
    ensures Increment(w, Velocities(s), h, d) == Scale(x.velocity, h)
    ensures Increment(w, Accelerations(s), h, d) == Scale(x.acc, h)
  {
    ExactForConstantSamples(w, Velocities(s), x.velocity, h, d);
    ExactForConstantSamples(w, Accelerations(s), x.acc, h, d);
  }

  /** `Sum` of a prefix grows by the next entry. */
  lemma {:induction false} SumSnoc(s: seq<real>, k: nat)
    requires k < |s|
    ensures Sum(s[..k + 1]) == Sum(s[..k]) + s[k]
    decreases k
  {
    if k > 0 {
      assert s[..k + 1][1..] == s[1..][..k];
      assert s[..k][1..] == s[1..][..k - 1];
      SumSnoc(s[1..], k - 1);
    }
  }

  /** With every sample equal to `v`, the sum is `v` times the sum of the
      coefficients used. */
  lemma {:induction false} ConstantSamples(w: seq<real>, f: seq<Vector>, v: Vector, k: nat)
    requires k <= |f| <= |w|
    requires forall q :: 0 <= q < |f| ==> f[q] == v
    ensures NewestFirst(w, f, k) == Scale(v, Sum(w[..k]))
    decreases k
  {
    if k > 0 {
      ConstantSamples(w, f, v, k - 1);
      SumSnoc(w, k - 1);
      ScaleDistributes(v, Sum(w[..k - 1]), w[k - 1]);
    }
  }

  lemma ScaleDistributes(v: Vector, a: real, b: real)
    ensures Add(Scale(v, a), Scale(v, b)) == Scale(v, a + b)
  {
    assert v.x * a + v.x * b == v.x * (a + b);
    assert v.y * a + v.y * b == v.y * (a + b);
    assert v.z * a + v.z * b == v.z * (a + b);
  }

  lemma ScaledBack(v: Vector, s: real, h: real, d: real)
    requires s * d == 1.0
    ensures Scale(Scale(Scale(v, s), h), d) == Scale(v, h)
  {
    Rescale(v.x, s, h, d);
    Rescale(v.y, s, h, d);
    Rescale(v.z, s, h, d);
  }

  lemma Rescale(a: real, s: real, h: real, d: real)
    requires s * d == 1.0
    ensures a * s * h * d == a * h
  {
    calc {
      a * s * h * d;
      == (a * h) * (s * d);
      == a * h;
    }
  }

  /** A formula whose coefficients sum to the reciprocal of the divisor is
      exact for a constant derivative: the increment `h * sum * d` is
      `h * v`. */
  lemma ExactForConstantSamples(w: seq<real>, f: seq<Vector>, v: Vector, h: real, d: real)
    requires |f| == |w| && Sum(w) * d == 1.0
    requires forall q :: 0 <= q < |f| ==> f[q] == v
    ensures Increment(w, f, h, d) == Scale(v, h)
  {
    CodeOrderIsTextbookSum(w, f);
    ConstantSamples(w, f, v, |f|);
    assert w[..|f|] == w;
    ScaledBack(v, Sum(w), h, d);
  }
}
