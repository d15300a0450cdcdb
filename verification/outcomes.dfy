/** Error reporting shared by the whole model: every C++ exception the core
    throws becomes an `Error` value carried by `Result`/`Outcome`. */
module Outcomes {

  /** The exceptions of the core, one constructor per distinct cause. */
  datatype Error =
    | DivideByZero          // Vector::operator/= with a zero divisor
    | IndexOutOfRange       // Vector::operator[] or std::vector::at
    | Crash                 // two bodies closer than 0.1 during a force evaluation
    | CoefficientIndex      // AdamsConstants accessor beyond the order
    | UnknownAlgorithm      // factory given a value outside the Type enum
    | EmptyUniverse         // SimulationHistory::save of an empty universe
    | UniverseSizeChanged   // SimulationHistory::save with a different body count
    | OldState              // SimulationHistory::save with an earlier time
    | NullPointer           // SimulationHistory::load with a null argument
    | NoData                // SimulationHistory::load of an empty history
    | HistoryIndex          // state index beyond the saved states
    | BodyIndex             // body index beyond the saved bodies

  /** A value or the error that was thrown instead. */
  datatype Result<T> = Ok(value: T) | Err(error: Error)

  /** Completion of a `void` operation: it returned, or it threw. */
  datatype Outcome = Pass | Fail(error: Error)

  datatype Option<T> = None | Some(value: T)
}
