/** The Adams-Bashforth-Moulton predictor-corrector method of orders 4 and
    8 (abm.cpp) once its history is full. For each body in turn the
    Adams-Bashforth formula predicts a position and a velocity, the force is
    evaluated at the predicted position (seeing the bodies before it
    already corrected), and the Adams-Moulton formula corrects the body. */
module AdamsBashforthMoultonScheme {
  import opened Outcomes
  import opened Vectors
  import opened Universes
  import opened Forces
  import opened Sweeps
  import opened AdamsConstantsTables
  import opened AdamsSums
  import opened AdamsBashforthScheme

  /** The corrector's samples of body `i`, oldest first: its history without
      the oldest frame, its current item and the predicted item. */
  function CorrectorSamples(history: seq<Frame>, i: nat, b: Body, predicted: HistoryItem): (s: seq<HistoryItem>)
    requires 1 <= |history| && Covers(history, i + 1)
    ensures |s| == |history| + 1 && s[|history| - 1] == Item(b) && s[|history|] == predicted
    ensures forall k :: 1 <= k < |history| ==> s[k - 1] == history[k][i]
  {
    Column(history, i)[1..] + [Item(b), predicted]
  }

  /** One iteration for body `j`, whose value is `b`, in the current
      universe `w`: the prediction is `AbBody`; the force at the predicted
      position may crash, before the body changes. */
  function AbmBody(c: AdamsConstants, history: seq<Frame>, w: seq<Body>, j: nat, b: Body, h: real): (r: BodyStep)
    requires Ready(c, history, j + 1)
    ensures r.Stopped? ==> r.error == Crash && r.partial == b
  {
    var p := AbBody(c, history, j, b, h);
    match AccelerationAt(w, j, p.position)
    case Err(e) => Stopped(e, b)
    case Ok(ap) => Advanced(Corrected(c, history, j, b, HistoryItem(p.velocity, ap), h))
  }

  /** The corrector: body `j`, whose value is `b`, after the Adams-Moulton
      formula with the predicted item. */
  function Corrected(c: AdamsConstants, history: seq<Frame>, j: nat, b: Body, predicted: HistoryItem, h: real): Body
    requires Ready(c, history, j + 1)
  {
    Update(c.m, c.d, CorrectorSamples(history, j, b, predicted), b, h)
  }

  function AbmStepper(c: AdamsConstants, history: seq<Frame>, h: real, n: nat): Stepper
  {
    (w: seq<Body>, j: nat, b: Body) requires Ready(c, history, n) && j < n => AbmBody(c, history, w, j, b, h)
  }

  /** The end of a multistep step: outcome, bodies and history. */
  datatype MultistepRun = MultistepRun(outcome: Outcome, bodies: seq<Body>, history: seq<Frame>)

  /** `AdamsBashforthMoulton::computeStepImplementation` past the start-up:
      the history takes the frame of the items from before the step only
      when every body was corrected. */
  function AbmStep(c: AdamsConstants, history: seq<Frame>, u: seq<Body>, h: real): (r: MultistepRun)
    requires Ready(c, history, |u|)
    ensures |r.bodies| == |u|
    ensures r.outcome.Pass? ==> r.history == Shifted(history, ItemsOf(u))
    ensures r.outcome.Fail? ==> r.history == history && r.outcome.error == Crash
  {
    assert Applicable(AbmStepper(c, history, h, |u|), |u|);
    var s := SweepFrom(AbmStepper(c, history, h, |u|), u, 0);
    SweepExplained(AbmStepper(c, history, h, |u|), u);
    MultistepRun(s.outcome, s.bodies, if s.outcome.Pass? then Shifted(history, ItemsOf(u)) else history)
  }

  /** The corrector's inner loop for body `i`: coefficient `indexM` from
      `order - 1` down to 2 meets frame `indexH` from the second oldest on. */
  method MoultonHistorySums(c: AdamsConstants, history: seq<Frame>, i: nat) returns (sum1: Vector, sum2: Vector)
    requires Valid(c)
    requires Ready(c, history, i + 1)
    ensures sum1 == OldestFirst(c.m[2..], Velocities(Column(history, i)[1..]), c.order - 2)
    ensures sum2 == OldestFirst(c.m[2..], Accelerations(Column(history, i)[1..]), c.order - 2)
  {
    sum1, sum2 := Zero, Zero;
    var indexH: nat := 1;
    var indexM: int := c.order - 1;
    while indexM > 1 && indexH < c.order - 1
      invariant indexM + indexH == c.order && 1 <= indexH <= c.order - 1
      invariant sum1 == OldestFirst(c.m[2..], Velocities(Column(history, i)[1..]), indexH - 1)
      invariant sum2 == OldestFirst(c.m[2..], Accelerations(Column(history, i)[1..]), indexH - 1)
      decreases indexM
    {
      var coefficient := Moulton(c, indexM as nat).value;
      sum1 := Add(sum1, Scale(history[indexH][i].velocity, coefficient));
      sum2 := Add(sum2, Scale(history[indexH][i].acc, coefficient));
      indexM := indexM - 1;
      indexH := indexH + 1;
    }
  }

  /** The history sums plus the current and the predicted samples, with
      coefficients 1 and 0, are the whole corrector sums. */
  lemma CorrectorSums(c: AdamsConstants, history: seq<Frame>, i: nat, b: Body, predicted: HistoryItem)
    requires Ready(c, history, i + 1)
    ensures OldestFirst(c.m, Velocities(CorrectorSamples(history, i, b, predicted)), c.order)
         == Add(Add(OldestFirst(c.m[2..], Velocities(Column(history, i)[1..]), c.order - 2), Scale(b.velocity, c.m[1])),
                Scale(predicted.velocity, c.m[0]))
    ensures OldestFirst(c.m, Accelerations(CorrectorSamples(history, i, b, predicted)), c.order)
         == Add(Add(OldestFirst(c.m[2..], Accelerations(Column(history, i)[1..]), c.order - 2), Scale(b.acceleration, c.m[1])),
                Scale(predicted.acc, c.m[0]))
  {
    var older := Column(history, i)[1..];
    assert CorrectorSamples(history, i, b, predicted) == (older + [Item(b)]) + [predicted];
    ProjectionsSnoc(older, Item(b));
    ProjectionsSnoc(older + [Item(b)], predicted);
    assert c.m[1..][1..] == c.m[2..];
    LastSample(c.m, Velocities(older + [Item(b)]), predicted.velocity);
    LastSample(c.m[1..], Velocities(older), b.velocity);
    LastSample(c.m, Accelerations(older + [Item(b)]), predicted.acc);
    LastSample(c.m[1..], Accelerations(older), b.acceleration);
  }

  /** The body of the loop for body `i`: prediction, force at the predicted
      position, correction. */
  method AbmAdvanceBody(c: AdamsConstants, history: seq<Frame>, u: array<Body>, i: nat, h: real) returns (out: Outcome)
    requires Valid(c)
    requires i < u.Length && Ready(c, history, u.Length)
    modifies u
    ensures match AbmBody(c, history, old(u[..]), i, old(u[i]), h)
      case Stopped(e, _) => out == Fail(e) && u[..] == old(u[..])
      case Advanced(b) => out == Pass && u[..] == old(u[..])[i := b]
  {
    var body := u[i];
    var sum1, sum2 := BashforthHistorySums(c, history, i);
    sum1 := Add(sum1, Scale(body.velocity, Bashforth(c, 0).value));
    sum2 := Add(sum2, Scale(body.acceleration, Bashforth(c, 0).value));
    PredictorSums(c, history, i, body);
    var xp := Add(body.position, Scale(Scale(sum1, h), Divisor(c)));
    var vp := Add(body.velocity, Scale(Scale(sum2, h), Divisor(c)));
    sum1, sum2 := MoultonHistorySums(c, history, i);
    sum1 := Add(sum1, Scale(body.velocity, Moulton(c, 1).value));
    sum1 := Add(sum1, Scale(vp, Moulton(c, 0).value));
    sum2 := Add(sum2, Scale(body.acceleration, Moulton(c, 1).value));
    var ap := AccelerationAt(u[..], i, xp);
    if ap.Err? {
      return Fail(ap.error);
    }
    sum2 := Add(sum2, Scale(ap.value, Moulton(c, 0).value));
    CorrectorSums(c, history, i, body, HistoryItem(vp, ap.value));
    body := body.(position := Add(body.position, Scale(Scale(sum1, h), Divisor(c))));
    body := body.(velocity := Add(body.velocity, Scale(Scale(sum2, h), Divisor(c))));
    u[i] := body;
    out := Pass;
  }

  /** One iteration of the loop in terms of the universe before it. */
  lemma AbmIteration(c: AdamsConstants, history: seq<Frame>, w: seq<Body>, i: nat, h: real)
    requires i < |w| && Ready(c, history, |w|)
    ensures match AbmBody(c, history, w, i, w[i], h)
      case Stopped(e, b) => SweepFrom(AbmStepper(c, history, h, |w|), w, i) == Swept(Fail(e), w[i := b], i)
      case Advanced(b) => SweepFrom(AbmStepper(c, history, h, |w|), w, i) == SweepFrom(AbmStepper(c, history, h, |w|), w[i := b], i + 1)
  {
    assert Applicable(AbmStepper(c, history, h, |w|), |w|);
  }

  /** What holds before iteration `i` of the loop over the universe that
      was `orig` when the step began: `w` is the sweep's state, the bodies
      from `i` on are untouched and `state` holds the items of the bodies
      before `i` as they were. */
  ghost predicate AbmInvariant(c: AdamsConstants, history: seq<Frame>, orig: seq<Body>, w: seq<Body>, i: nat, h: real, state: Frame)
  {
    && i <= |w| == |orig|
    && Ready(c, history, |w|)
    && Applicable(AbmStepper(c, history, h, |w|), |w|)
    && SweepFrom(AbmStepper(c, history, h, |w|), w, i) == SweepFrom(AbmStepper(c, history, h, |w|), orig, 0)
    && (forall k :: i <= k < |w| ==> w[k] == orig[k])
    && state == ItemsOf(orig[..i])
  }

  /** One iteration of the loop: it keeps the invariant or ends the step. */
  method AbmIterate(c: AdamsConstants, history: seq<Frame>, u: array<Body>, i: nat, h: real, ghost orig: seq<Body>, state: Frame)
      returns (out: Outcome, newState: Frame)
    requires Valid(c)
    requires i < u.Length && AbmInvariant(c, history, orig, u[..], i, h, state)
    modifies u
    ensures out.Pass? ==> AbmInvariant(c, history, orig, u[..], i + 1, h, newState)
    ensures out.Fail? ==> AbmStep(c, history, orig, h) == MultistepRun(out, u[..], history)
  {
    newState := state + [HistoryItem(u[i].velocity, u[i].acceleration)];
    AbmInvariantStep(c, history, orig, u[..], i, h, state);
    out := AbmAdvanceBody(c, history, u, i, h);
  }

  /** The invariant after iteration `i`, or the run the step ends with. */
  lemma AbmInvariantStep(c: AdamsConstants, history: seq<Frame>, orig: seq<Body>, w: seq<Body>, i: nat, h: real, state: Frame)
    requires i < |w| && AbmInvariant(c, history, orig, w, i, h, state)
    ensures match AbmBody(c, history, w, i, w[i], h)
      case Stopped(e, _) => AbmStep(c, history, orig, h) == MultistepRun(Fail(e), w, history)
      case Advanced(b) => AbmInvariant(c, history, orig, w[i := b], i + 1, h, state + [Item(w[i])])
  {
    AbmIteration(c, history, w, i, h);
    match AbmBody(c, history, w, i, w[i], h)
    case Stopped(e, b) =>
      assert w[i := b] == w;
    case Advanced(b) =>
      ItemsOfSnoc(orig, i);
  }

  /** `AdamsBashforthMoulton::computeStepImplementation` past the start-up:
      the bodies are corrected one after another and the history is shifted
      only when no force evaluation crashed. */
  method AbmStepInPlace(c: AdamsConstants, history: seq<Frame>, u: array<Body>, h: real) returns (out: Outcome, newHistory: seq<Frame>)
    requires Valid(c)
    requires Ready(c, history, u.Length)
    modifies u
    ensures MultistepRun(out, u[..], newHistory) == AbmStep(c, history, old(u[..]), h)
  {
    ghost var orig := u[..];
    assert Applicable(AbmStepper(c, history, h, u.Length), u.Length);
    var state: Frame := [];
    newHistory := history;
    for i := 0 to u.Length
      invariant AbmInvariant(c, history, orig, u[..], i, h, state)
    {
      out, state := AbmIterate(c, history, u, i, h, orig, state);
      if out.Fail? {
        return;
      }
    }
    AbmCompleted(c, history, orig, u[..], h, state);
    newHistory := (history + [state])[1..];
    out := Pass;
  }

  /** The run a loop that reached the end yields. */
  lemma AbmCompleted(c: AdamsConstants, history: seq<Frame>, u: seq<Body>, w: seq<Body>, h: real, state: Frame)
    requires AbmInvariant(c, history, u, w, |u|, h, state)
    ensures AbmStep(c, history, u, h) == MultistepRun(Pass, w, Shifted(history, state))
  {
    assert u[..|u|] == u;
  }

  /** Bodies are corrected in place one after another: the force at the
      predicted position of body `i` is evaluated with the bodies before it
      corrected and the bodies after it as they were; a crash leaves the
      crashing body and the later ones untouched. */
  lemma AbmInOrder(c: AdamsConstants, history: seq<Frame>, u: seq<Body>, h: real)
    requires Ready(c, history, |u|)
    ensures var r := AbmStep(c, history, u, h);
      && (r.outcome.Pass? ==> forall i :: 0 <= i < |u| ==> AbmBody(c, history, StateAt(u, r.bodies, i), i, u[i], h) == Advanced(r.bodies[i]))
      && (r.outcome.Fail? ==>
            exists k :: 0 <= k < |u| && r.bodies[k] == u[k] && r.bodies[k + 1..] == u[k + 1..]
              && AbmBody(c, history, StateAt(u, r.bodies, k), k, u[k], h).Stopped?
              && (forall i :: 0 <= i < k ==> AbmBody(c, history, StateAt(u, r.bodies, i), i, u[i], h) == Advanced(r.bodies[i])))
  {
    var step := AbmStepper(c, history, h, |u|);
    assert Applicable(step, |u|);
    SweepExplained(step, u);
    var s := SweepFrom(step, u, 0);
    assert AbmStep(c, history, u, h).bodies == s.bodies;
    forall i | 0 <= i < s.stop
      ensures AbmBody(c, history, StateAt(u, s.bodies, i), i, u[i], h) == Advanced(s.bodies[i])
    {
      assert step(StateAt(u, s.bodies, i), i, u[i]) == Advanced(s.bodies[i]);
    }
    if s.outcome.Fail? {
      var k := s.stop;
      assert step(StateAt(u, s.bodies, k), k, u[k]).Stopped?;
      assert s.bodies[k] == u[k];
    }
  }

  /** The step is the textbook corrector
      `x += h d (m_0 v_p + sum_(j>=1) m_j v_(n+1-j))`, and likewise for the
      velocity with the force at the predicted position. */
  lemma AbmIsTextbookFormula(c: AdamsConstants, history: seq<Frame>, w: seq<Body>, j: nat, b: Body, h: real)
    requires Ready(c, history, j + 1)
    ensures match AbmBody(c, history, w, j, b, h)
      case Stopped(_, _) => true
      case Advanced(r) =>
        var p := AbBody(c, history, j, b, h);
        var s := CorrectorSamples(history, j, b, HistoryItem(p.velocity, AccelerationAt(w, j, p.position).value));
        && r.position == Add(b.position, Scale(Scale(NewestFirst(c.m, Velocities(s), c.order), h), c.d))
        && r.velocity == Add(b.velocity, Scale(Scale(NewestFirst(c.m, Accelerations(s), c.order), h), c.d))
  {
    var p := AbBody(c, history, j, b, h);
    var a := AccelerationAt(w, j, p.position);
    if a.Ok? {
      var s := CorrectorSamples(history, j, b, HistoryItem(p.velocity, a.value));
      CodeOrderIsTextbookSum(c.m, Velocities(s));
      CodeOrderIsTextbookSum(c.m, Accelerations(s));
    }
  }

  /** A body in uniform motion whose history shows that motion, and which
      feels no force at the predicted position, is predicted and corrected
      exactly: it moves by `h v`. */
  lemma AbmExactForUniformMotion(c: AdamsConstants, history: seq<Frame>, w: seq<Body>, j: nat, b: Body, h: real)
    requires Ready(c, history, j + 1) && Normalised(c) && b.acceleration == Zero
    requires forall k :: 0 <= k < |history| ==> history[k][j] == Item(b)
    requires AccelerationAt(w, j, Add(b.position, Scale(b.velocity, h))) == Ok(Zero)
    ensures AbmBody(c, history, w, j, b, h) == Advanced(b.(position := Add(b.position, Scale(b.velocity, h))))
  {
    var moved := b.(position := Add(b.position, Scale(b.velocity, h)));
    assert Add(b.velocity, Scale(Zero, h)) == b.velocity;
    assert AbBody(c, history, j, b, h) == moved by {
      AbExactForSteadySamples(c, history, j, b, h);
    }
    assert HistoryItem(b.velocity, Zero) == Item(b);
    SteadyCorrection(c, history, j, b, h);
  }

  lemma SteadyCorrection(c: AdamsConstants, history: seq<Frame>, j: nat, b: Body, h: real)
    requires Ready(c, history, j + 1) && Normalised(c) && b.acceleration == Zero
    requires forall k :: 0 <= k < |history| ==> history[k][j] == Item(b)
    ensures Corrected(c, history, j, b, Item(b), h) == b.(position := Add(b.position, Scale(b.velocity, h)))
  {
    assert Add(b.velocity, Scale(Zero, h)) == b.velocity;
    SteadyCorrectorSamples(history, j, b);
    SteadyUpdate(c.m, c.d, CorrectorSamples(history, j, b, Item(b)), b, h);
  }

  lemma SteadyCorrectorSamples(history: seq<Frame>, j: nat, b: Body)
    requires 1 <= |history| && Covers(history, j + 1)
    requires forall k :: 0 <= k < |history| ==> history[k][j] == Item(b)
    ensures AllEqual(CorrectorSamples(history, j, b, Item(b)), Item(b))
  {
    var s := CorrectorSamples(history, j, b, Item(b));
    forall q | 0 <= q < |s|
      ensures s[q] == Item(b)
    {
      if q < |history| - 1 {
        assert s[q] == history[q + 1][j];
      }
    }
  }

  /** A lone body in uniform motion whose history shows that motion moves
      by `h v`, and the history is shifted. */
  lemma AbmLoneBodyUniformMotion(c: AdamsConstants, history: seq<Frame>, b: Body, h: real)
    requires Ready(c, history, 1) && Normalised(c) && b.acceleration == Zero
    requires forall k :: 0 <= k < |history| ==> history[k][0] == Item(b)
    ensures AbmStep(c, history, [b], h)
         == MultistepRun(Pass, [b.(position := Add(b.position, Scale(b.velocity, h)))], Shifted(history, [Item(b)]))
  {
    var moved := b.(position := Add(b.position, Scale(b.velocity, h)));
    LoneBodyFeelsNoForce(b, Add(b.position, Scale(b.velocity, h)));
    AbmExactForUniformMotion(c, history, [b], 0, b, h);
    AbmIteration(c, history, [b], 0, h);
    assert [b][0 := moved] == [moved];
    assert ItemsOf([b]) == [Item(b)];
  }
}
