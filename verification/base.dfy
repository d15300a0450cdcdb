/** The integrator engine of base.h and factory.cpp: the template method
    `computeStep` shared by all schemes, the multistep start-up with a
    recording Runge-Kutta object, `reset`, `getType` and the factory.
    The C++ class hierarchy (one subclass per scheme) is a closed set of
    variants, so it becomes one class whose constant `scheme` selects the
    implementation. */
module Integrators {
  import opened Outcomes
  import opened Universes
  import opened Forces
  import opened Sweeps
  import opened EulerScheme
  import opened LeapfrogScheme
  import opened RungeKuttaScheme
  import opened AdamsConstantsTables
  import opened AdamsSums
  import opened AdamsBashforthScheme
  import opened AdamsBashforthMoultonScheme
  import AlgorithmTypes

  /** The subclasses of `Base`. */
  datatype Scheme = Euler | Leapfrog | RungeKutta | AdamsBashforth | AdamsBashforthMoulton

  /** What a constructor fixes: the scheme, `Base::order`, and the
      `save_step` flag that only the Runge-Kutta class has. */
  datatype Config = Config(scheme: Scheme, order: nat, saveStep: bool)

  predicate Multistep(s: Scheme)
  {
    s == AdamsBashforth || s == AdamsBashforthMoulton
  }

  /** The configurations the constructors accept: the Adams classes build
      their `AdamsConstants` from the order, which must be 4 or 8. */
  predicate Configured(cfg: Config)
  {
    && (Multistep(cfg.scheme) ==> SupportedOrder(cfg.order))
    && (cfg.saveStep ==> cfg.scheme == RungeKutta)
  }

  /** The state a scheme keeps between steps: the Adams `history` and the
      Runge-Kutta `stepData`. A scheme without the member keeps it empty. */
  datatype Memory = Memory(history: seq<Frame>, stepData: Frame)

  predicate Consistent(cfg: Config, mem: Memory)
  {
    && Configured(cfg)
    && (Multistep(cfg.scheme) ==> |mem.history| <= cfg.order - 1)
    && (!Multistep(cfg.scheme) ==> mem.history == [])
    && (cfg.scheme != RungeKutta ==> mem.stepData == [])
  }

  /** Every frame of the history has one item per body of a universe of
      `n` bodies: the history was recorded for this universe (`reset` is to
      be called before another one is used). */
  predicate Fits(history: seq<Frame>, n: nat)
  {
    forall k :: 0 <= k < |history| ==> |history[k]| == n
  }

  /** The end of a step: outcome, bodies and the scheme's memory. */
  datatype StepResult = StepResult(outcome: Outcome, bodies: seq<Body>, memory: Memory)

  /** The Adams start-up runs a Runge-Kutta step, which runs no other. */
  function Rank(s: Scheme): nat
  {
    if Multistep(s) then 1 else 0
  }

  /** `RungeKutta rk4(4, true)`: the recording object of the start-up. */
  const Recorder: Config := Config(RungeKutta, 4, true)

  /** `Base::computeStep`: nothing happens to an empty universe; otherwise
      every acceleration is computed once, and then the scheme's own step
      runs on the universe that holds them. */
  function Step(cfg: Config, mem: Memory, u: seq<Body>, h: real): (r: StepResult)
    requires Consistent(cfg, mem) && Fits(mem.history, |u|)
    ensures |r.bodies| == |u| && Consistent(cfg, r.memory) && Fits(r.memory.history, |u|)
    ensures |u| == 0 ==> r == StepResult(Pass, u, mem)
    ensures !cfg.saveStep ==> r.memory.stepData == mem.stepData
    ensures cfg.saveStep && r.outcome.Pass? && |u| > 0 ==> r.memory.stepData == ItemsOf(AccelerationsFrom(u, 0).bodies)
    decreases Rank(cfg.scheme), 1
  {
    if |u| < 1 then StepResult(Pass, u, mem)
    else
      var a := AccelerationsFrom(u, 0);
      if a.outcome.Fail? then StepResult(a.outcome, a.bodies, mem)
      else Implementation(cfg, mem, a.bodies, h)
  }

  /** `computeStepImplementation` of each subclass. A multistep scheme
      whose history is short takes a recording Runge-Kutta step (whose
      `computeStep` computes the accelerations again) and appends the
      recorded frame; a crash propagates before the frame is appended. */
  function Implementation(cfg: Config, mem: Memory, u: seq<Body>, h: real): (r: StepResult)
    requires Consistent(cfg, mem) && Fits(mem.history, |u|)
    ensures |r.bodies| == |u| && Consistent(cfg, r.memory) && Fits(r.memory.history, |u|)
    ensures !cfg.saveStep ==> r.memory.stepData == mem.stepData
    ensures cfg.saveStep && r.outcome.Pass? ==> r.memory.stepData == ItemsOf(u)
    decreases Rank(cfg.scheme), 0
  {
    match cfg.scheme
    case Euler => StepResult(Pass, EulerStep(u, h), mem)
    case Leapfrog =>
      var s := LeapfrogStep(u, h);
      StepResult(s.outcome, s.bodies, mem)
    case RungeKutta =>
      var r := Rk4Step(u, h, cfg.saveStep, if cfg.saveStep then [] else mem.stepData);
      StepResult(r.outcome, r.bodies, mem.(stepData := r.data))
    case _ =>
      if |mem.history| < cfg.order - 1 then
        var k := Step(Recorder, Memory([], []), u, h);
        StepResult(k.outcome, k.bodies, if k.outcome.Pass? then mem.(history := mem.history + [k.memory.stepData]) else mem)
      else
        AdamsStep(cfg, mem, u, h)
  }

  /** A multistep step once the history holds `order - 1` frames. */
  function AdamsStep(cfg: Config, mem: Memory, u: seq<Body>, h: real): (r: StepResult)
    requires Consistent(cfg, mem) && Fits(mem.history, |u|)
    requires Multistep(cfg.scheme) && |mem.history| == cfg.order - 1
    ensures |r.bodies| == |u| && Consistent(cfg, r.memory) && Fits(r.memory.history, |u|)
    ensures r.memory.stepData == mem.stepData
    ensures r.outcome.Pass? ==> r.memory.history == Shifted(mem.history, ItemsOf(u))
    ensures r.outcome.Fail? ==> r.memory.history == mem.history
  {
    var c := Make(cfg.order);
    ShiftedFits(mem.history, ItemsOf(u), |u|);
    if cfg.scheme == AdamsBashforth then
      StepResult(Pass, AbStep(c, mem.history, u, h), mem.(history := Shifted(mem.history, ItemsOf(u))))
    else
      var r := AbmStep(c, mem.history, u, h);
      StepResult(r.outcome, r.bodies, mem.(history := r.history))
  }

  lemma ShiftedFits(history: seq<Frame>, frame: Frame, n: nat)
    requires Fits(history, n) && |frame| == n
    ensures Fits(Shifted(history, frame), n)
  {
  }

  /** While the history is short, a multistep step is exactly one step of a
      fresh recording Runge-Kutta object: computing the accelerations twice
      changes nothing, and the recorded frame is appended unless the step
      crashed. */
  lemma StartUpIsRecordingRk4(cfg: Config, mem: Memory, u: seq<Body>, h: real)
    requires Consistent(cfg, mem) && Fits(mem.history, |u|)
    requires Multistep(cfg.scheme) && |mem.history| < cfg.order - 1 && |u| > 0
    ensures var r := Step(cfg, mem, u, h);
      var k := Step(Recorder, Memory([], []), u, h);
      && r.outcome == k.outcome && r.bodies == k.bodies
      && r.memory.history == (if k.outcome.Pass? then mem.history + [k.memory.stepData] else mem.history)
  {
    var a := AccelerationsFrom(u, 0);
    if a.outcome.Pass? {
      AccelerationsIdempotent(u);
      assert Step(Recorder, Memory([], []), a.bodies, h) == Implementation(Recorder, Memory([], []), a.bodies, h);
    }
  }

  /** The history of a multistep scheme grows by one frame per step until
      it holds `order - 1` frames and then keeps that length, the oldest
      frame dropping out; the newest frame holds every body's velocity and
      acceleration from before the step's advance; a crash leaves the
      history as it was. */
  lemma HistoryWindow(cfg: Config, mem: Memory, u: seq<Body>, h: real)
    requires Consistent(cfg, mem) && Fits(mem.history, |u|)
    requires Multistep(cfg.scheme) && |u| > 0
    ensures var r := Step(cfg, mem, u, h);
      var n := |r.memory.history|;
      && (r.outcome.Fail? ==> r.memory.history == mem.history)
      && (r.outcome.Pass? ==>
            && n == (if |mem.history| < cfg.order - 1 then |mem.history| + 1 else cfg.order - 1)
            && r.memory.history[n - 1] == ItemsOf(AccelerationsFrom(u, 0).bodies)
            && r.memory.history[..n - 1] == (if |mem.history| < cfg.order - 1 then mem.history else mem.history[1..]))
  {
    var a := AccelerationsFrom(u, 0);
    if |mem.history| < cfg.order - 1 {
      StartUpWindow(cfg, mem, u, h);
    } else {
      SteadyWindow(cfg, mem, u, h);
    }
  }

  /** While the history is short, a step appends the newest frame. */
  lemma StartUpWindow(cfg: Config, mem: Memory, u: seq<Body>, h: real)
    requires Consistent(cfg, mem) && Fits(mem.history, |u|)
    requires Multistep(cfg.scheme) && |mem.history| < cfg.order - 1 && |u| > 0
    ensures var r := Step(cfg, mem, u, h);
      && (r.outcome.Fail? ==> r.memory.history == mem.history)
      && (r.outcome.Pass? ==> r.memory.history == mem.history + [ItemsOf(AccelerationsFrom(u, 0).bodies)])
  {
    if AccelerationsFrom(u, 0).outcome.Pass? {
      StartUpIsRecordingRk4(cfg, mem, u, h);
    }
  }

  /** Once the history is full, a step shifts the newest frame in. */
  lemma SteadyWindow(cfg: Config, mem: Memory, u: seq<Body>, h: real)
    requires Consistent(cfg, mem) && Fits(mem.history, |u|)
    requires Multistep(cfg.scheme) && |mem.history| == cfg.order - 1 && |u| > 0
    ensures var r := Step(cfg, mem, u, h);
      && (r.outcome.Fail? ==> r.memory.history == mem.history)
      && (r.outcome.Pass? ==> r.memory.history == Shifted(mem.history, ItemsOf(AccelerationsFrom(u, 0).bodies)))
  {
  }

  /** The length part of `HistoryWindow`. */
  lemma WindowLength(cfg: Config, mem: Memory, u: seq<Body>, h: real)
    requires Consistent(cfg, mem) && Fits(mem.history, |u|)
    requires Multistep(cfg.scheme) && |u| > 0
    ensures var r := Step(cfg, mem, u, h);
      r.outcome.Pass? ==> |r.memory.history| == Window(|mem.history| + 1, cfg.order - 1)
  {
    HistoryWindow(cfg, mem, u, h);
  }

  /** `n` calls of `computeStep` with the same step length, stopping at
      the first crash. */
  function Repeated(cfg: Config, mem: Memory, u: seq<Body>, h: real, n: nat): (r: StepResult)
    requires Consistent(cfg, mem) && Fits(mem.history, |u|)
    ensures |r.bodies| == |u| && Consistent(cfg, r.memory) && Fits(r.memory.history, |u|)
    decreases n
  {
    if n == 0 then StepResult(Pass, u, mem)
    else
      var r := Step(cfg, mem, u, h);
      if r.outcome.Fail? then r else Repeated(cfg, r.memory, r.bodies, h, n - 1)
  }

  /** The start-up ends after `order - 1` steps: from an empty history,
      `n` steps without a crash leave `min(n, order - 1)` frames, so every
      later step uses the Adams formula. */
  lemma {:induction false} StartUpLength(cfg: Config, mem: Memory, u: seq<Body>, h: real, n: nat)
    requires Consistent(cfg, mem) && Fits(mem.history, |u|)
    requires Multistep(cfg.scheme) && |u| > 0
    ensures var r := Repeated(cfg, mem, u, h, n);
      r.outcome.Pass? ==> |r.memory.history| == Window(|mem.history| + n, cfg.order - 1)
    decreases n
  {
    if n > 0 {
      var r := Step(cfg, mem, u, h);
      if r.outcome.Pass? {
        WindowLength(cfg, mem, u, h);
        StartUpLength(cfg, r.memory, r.bodies, h, n - 1);
        WindowArithmetic(|mem.history|, n, cfg.order - 1);
      }
    }
  }

  /** The number of frames a history holds after `count` appends to an
      empty history that keeps at most `cap`. */
  function Window(count: nat, cap: nat): nat
  {
    if count < cap then count else cap
  }

  /** One step of the window's growth followed by `n - 1` more is `n`. */
  lemma WindowArithmetic(len: nat, n: nat, cap: nat)
    requires len <= cap && n > 0
    ensures Window(Window(len + 1, cap) + (n - 1), cap) == Window(len + n, cap)
  {
  }

  /** `getType`: the enumerator of the scheme and order. The Runge-Kutta
      class asserts order 4, the Adams classes order 4 or 8. */
  function TypeOf(cfg: Config): (t: AlgorithmTypes.Type)
    requires Configured(cfg) && (cfg.scheme == RungeKutta ==> cfg.order == 4)
    ensures Multistep(cfg.scheme) <==> t in {AlgorithmTypes.Ab4, AlgorithmTypes.Ab8, AlgorithmTypes.Abm4, AlgorithmTypes.Abm8}
    ensures (t == AlgorithmTypes.Ab4 || t == AlgorithmTypes.Abm4) <==> Multistep(cfg.scheme) && cfg.order == 4
  {
    match cfg.scheme
    case Euler => AlgorithmTypes.Euler
    case Leapfrog => AlgorithmTypes.Leapfrog
    case RungeKutta => AlgorithmTypes.Rk4
    case AdamsBashforth => if cfg.order == 4 then AlgorithmTypes.Ab4 else AlgorithmTypes.Ab8
    case AdamsBashforthMoulton => if cfg.order == 4 then AlgorithmTypes.Abm4 else AlgorithmTypes.Abm8
  }

  /** The configuration `factory(type)` constructs: a non-recording object
      whose `getType` gives the type back. */
  function FactoryConfig(t: AlgorithmTypes.Type): (cfg: Config)
    ensures Configured(cfg) && !cfg.saveStep
    ensures cfg.scheme == RungeKutta ==> cfg.order == 4
    ensures TypeOf(cfg) == t
  {
    match t
    case Euler => Config(Euler, 0, false)
    case Leapfrog => Config(Leapfrog, 0, false)
    case Rk4 => Config(RungeKutta, 4, false)
    case Ab4 => Config(AdamsBashforth, 4, false)
    case Ab8 => Config(AdamsBashforth, 8, false)
    case Abm4 => Config(AdamsBashforthMoulton, 4, false)
    case Abm8 => Config(AdamsBashforthMoulton, 8, false)
  }

  /** `factory` given the value of a `Type`: "Unknown algorithm type" for
      a value outside the enumeration. */
  function FactoryOf(code: int): (r: Result<Config>)
    ensures r.Ok? <==> 0 <= code < AlgorithmTypes.TYPE_COUNT
    ensures r.Err? ==> r.error == UnknownAlgorithm
    ensures r.Ok? ==> Configured(r.value) && !r.value.saveStep && (r.value.scheme == RungeKutta ==> r.value.order == 4)
    ensures r.Ok? ==> AlgorithmTypes.Code(TypeOf(r.value)) == code
  {
    match AlgorithmTypes.FromCode(code)
    case None => Err(UnknownAlgorithm)
    case Some(t) => Ok(FactoryConfig(t))
  }

  /** An integrator object. */
  class Algorithm {
    const scheme: Scheme
    const order: nat
    const saveStep: bool
    var history: seq<Frame>
    var stepData: Frame

    function Cfg(): Config
    {
      Config(scheme, order, saveStep)
    }

    function Mem(): Memory
      reads this
    {
      Memory(history, stepData)
    }

    ghost predicate Valid()
      reads this
    {
      Consistent(Cfg(), Mem())
    }

    /** The constructors of the subclasses: a new object has an empty
        history and no step data. */
    constructor (cfg: Config)
      requires Configured(cfg)
      ensures Cfg() == cfg && history == [] && stepData == [] && Valid()
    {
      scheme := cfg.scheme;
      order := cfg.order;
      saveStep := cfg.saveStep;
      history := [];
      stepData := [];
    }

    /** `Base::computeStep`, the template method. */
    method ComputeStep(u: array<Body>, h: real) returns (out: Outcome)
      requires Valid() && Fits(history, u.Length)
      modifies this, u
      ensures Valid() && Fits(history, u.Length)
      ensures StepResult(out, u[..], Mem()) == Step(Cfg(), old(Mem()), old(u[..]), h)
      decreases Rank(scheme), 2
    {
      if u.Length < 1 {
        return Pass;
      }
      out := ComputeAccelerations(u);
      if out.Fail? {
        return;
      }
      out := ComputeStepImplementation(u, h);
    }

    /** The subclasses' `computeStepImplementation`. */
    method ComputeStepImplementation(u: array<Body>, h: real) returns (out: Outcome)
      requires Valid() && Fits(history, u.Length)
      modifies this, u
      ensures Valid() && Fits(history, u.Length)
      ensures StepResult(out, u[..], Mem()) == Implementation(Cfg(), old(Mem()), old(u[..]), h)
      decreases Rank(scheme), 1
    {
      match scheme
      case Euler =>
        EulerStepInPlace(u, h);
        out := Pass;
      case Leapfrog =>
        out := LeapfrogStepInPlace(u, h);
      case RungeKutta =>
        var data := if saveStep then [] else stepData;
        out, stepData := Rk4StepInPlace(u, h, saveStep, data);
      case _ =>
        if |history| < order - 1 {
          out := StartUp(u, h);
        } else {
          out := AdamsStepInPlace(u, h);
        }
    }

    /** A multistep step while the history is short: a fresh recording
        Runge-Kutta object takes the step and its data is appended. */
    method StartUp(u: array<Body>, h: real) returns (out: Outcome)
      requires Valid() && Fits(history, u.Length)
      requires Multistep(scheme) && |history| < order - 1
      modifies this, u
      ensures Valid() && Fits(history, u.Length)
      ensures StepResult(out, u[..], Mem()) == Implementation(Cfg(), old(Mem()), old(u[..]), h)
      decreases Rank(scheme), 0
    {
      var rk4 := new Algorithm(Recorder);
      out := rk4.ComputeStep(u, h);
      if out.Pass? {
        history := history + [rk4.stepData];
      }
    }

    /** A multistep step once the history is full. */
    method AdamsStepInPlace(u: array<Body>, h: real) returns (out: Outcome)
      requires Valid() && Fits(history, u.Length)
      requires Multistep(scheme) && |history| == order - 1
      modifies this, u
      ensures Valid() && Fits(history, u.Length)
      ensures StepResult(out, u[..], Mem()) == AdamsStep(Cfg(), old(Mem()), old(u[..]), h)
    {
      var c := Make(order);
      ShiftedFits(history, ItemsOf(u[..]), u.Length);
      if scheme == AdamsBashforth {
        history := AbStepInPlace(c, history, u, h);
        out := Pass;
      } else {
        out, history := AbmStepInPlace(c, history, u, h);
      }
    }

    /** `reset`: the Adams classes forget their history; the others keep
        everything (`Base::reset` does nothing). */
    method Reset()
      requires Valid()
      modifies this
      ensures Valid() && history == [] && stepData == old(stepData)
    {
      if Multistep(scheme) {
        history := [];
      }
    }
  }

  /** `algorithms::factory`: a fresh object of the type with the value
      `code`, or "Unknown algorithm type". */
  method Factory(code: int) returns (r: Result<Algorithm>)
    ensures r.Ok? <==> 0 <= code < AlgorithmTypes.TYPE_COUNT
    ensures r.Err? ==> r.error == UnknownAlgorithm
    ensures r.Ok? ==> fresh(r.value) && r.value.Valid() && r.value.Cfg() == FactoryOf(code).value
    ensures r.Ok? ==> r.value.history == [] && r.value.stepData == []
  {
    var cfg := FactoryOf(code);
    if cfg.Err? {
      return Err(cfg.error);
    }
    var a := new Algorithm(cfg.value);
    r := Ok(a);
  }
}
