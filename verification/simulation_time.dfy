/** The simulation clock of simulationtime.h: time is `initTime + t`, where
    `t` is recomputed as `step * counter` instead of being accumulated. */
module SimulationTimes {

  /** Default time step, one hour in seconds. */
  const DEFAULT_STEP: real := 3600.0

  /** `counter` is a 32-bit `unsigned` and wraps around at this value. */
  const COUNTER_MODULUS: nat := 0x1_0000_0000

  class SimulationTime {
    var t: real
    var initTime: real
    var step: real
    var counter: nat

    ghost predicate Valid()
      reads this
    {
      counter < COUNTER_MODULUS
    }

    constructor ()
      ensures Valid()
      ensures Time() == 0.0 && TimeStep() == DEFAULT_STEP
      ensures t == 0.0 && initTime == 0.0 && counter == 0
    {
      t := 0.0;
      initTime := 0.0;
      step := DEFAULT_STEP;
      counter := 0;
    }

    /** `time()`: seconds since the start of the simulation. */
    function Time(): real
      reads this
    {
      initTime + t
    }

    /** `timeStep()`. */
    function TimeStep(): real
      reads this
    {
      step
    }

    /** `updateTime()`: one more step; `t` is recomputed from the counter so
        that rounding errors do not accumulate. */
    method UpdateTime()
      requires Valid()
      modifies this
      ensures Valid()
      ensures counter == (old(counter) + 1) % COUNTER_MODULUS
      ensures t == step * counter as real
      ensures initTime == old(initTime) && step == old(step)
      ensures old(counter) + 1 < COUNTER_MODULUS ==> Time() == initTime + step * (old(counter) + 1) as real
      // with a fixed non-negative step and no wrap-around the clock never runs backwards
      ensures old(t) == old(step) * old(counter) as real && 0.0 <= step && old(counter) + 1 < COUNTER_MODULUS
              ==> old(Time()) <= Time()
    {
      counter := (counter + 1) % COUNTER_MODULUS;
      t := step * counter as real;
      if old(counter) + 1 < COUNTER_MODULUS {
        assert counter == old(counter) + 1;
        assert step * counter as real == step * old(counter) as real + step;
      }
    }

    /** `setTime(time)`: restart the clock at `time`. */
    method SetTime(time: real)
      requires Valid()
      modifies this
      ensures Valid()
      ensures Time() == time && t == 0.0 && counter == 0 && initTime == time
      ensures step == old(step)
    {
      initTime := time;
      t := 0.0;
      counter := 0;
    }

    /** `setTimeStep(timeStep)`: only the step changes; the reading of the
        clock stays as it was until the next `UpdateTime`. */
    method SetTimeStep(timeStep: real)
      requires Valid()
      modifies this
      ensures Valid()
      ensures step == timeStep && TimeStep() == timeStep
      ensures t == old(t) && initTime == old(initTime) && counter == old(counter)
      ensures Time() == old(Time())
    {
      step := timeStep;
    }
  }

  /** The clock as the unit tests drive it: after `SetTime(start)` and
      `n` calls of `UpdateTime`, the clock reads `start + step * n`. */
  method AdvanceClock(clock: SimulationTime, start: real, n: nat)
    requires clock.Valid() && n < COUNTER_MODULUS
    modifies clock
    ensures clock.Valid()
    ensures clock.Time() == start + clock.step * n as real
    ensures clock.counter == n && clock.step == old(clock.step)
  {
    clock.SetTime(start);
    var i := 0;
    while i < n
      invariant 0 <= i <= n
      invariant clock.Valid() && clock.counter == i && clock.initTime == start
      invariant clock.step == old(clock.step)
      invariant clock.t == clock.step * i as real
    {
      clock.UpdateTime();
      i := i + 1;
    }
  }
}
