/** Shared value types of the simulator: failure-compatible wrappers, the
    snapshot and buffer maps passed to user equations, and the shapes of the
    user callables themselves. */
module Types {

  /** `None` stands for a Python exception raised by a user callable. */
  datatype Option<+T> = None | Some(value: T) {
    predicate IsFailure() { None? }
    function PropagateFailure<U>(): Option<U>
      requires None?
    {
      None
    }
    function Extract(): T
      requires Some?
    {
      value
    }
  }

  datatype Result<+T, +E> = Success(value: T) | Failure(error: E) {
    predicate IsFailure() { Failure? }
    function PropagateFailure<U>(): Result<U, E>
      requires Failure?
    {
      Failure(error)
    }
    function Extract(): T
      requires Success?
    {
      value
    }
  }

  /** Newest sample of each named variable or parameter: `{name: value[-1]}`. */
  type Snapshot = map<string, real>

  /** Whole history buffer of each named variable: `{name: value}`. */
  type Buffers = map<string, seq<real>>

  /** `diff_eq_X(ui, variables, params)`: derivative of a state variable. */
  type DiffEq = (Snapshot, Snapshot) -> Option<real>

  /** `eq_Y(ui, variables, params)`: samples of an observable; a scalar is a
      one-element sequence. */
  type ObsEq = (Buffers, Snapshot) -> Option<seq<real>>

  /** `kernel_Z(variables, params)` defined in the input file. */
  type StepFn = (Snapshot, Snapshot) -> Option<Snapshot>
}
