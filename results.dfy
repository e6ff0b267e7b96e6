/** Outcomes of the engine: a value, a fatal fault (the code reports it and
    exits the process), or the model's fuel bound running out. */
module Results {

  datatype Option<+T> = None | Some(value: T)

  /** The fatal engine faults, one per distinct error message of the engine. */
  datatype Fatal =
    | StackUnderflow   // pop or pop_value on an empty frame without a parent
    | NoInstance       // GetAttr/SetAttr: no Instance anywhere on the stack
    | TooFewItems      // GetAttr/SetAttr: stack too short after taking a name
    | NoAttributeName  // an attribute chain without any name
    | IndexPanic       // List/Function index out of bounds (a Rust panic)

  datatype Outcome<+T> = Ok(value: T) | Fail(fatal: Fatal) | Exhausted {

    predicate IsFailure() {
      !Ok?
    }

    function PropagateFailure<U>(): Outcome<U>
      requires IsFailure()
    {
      if Fail? then Fail(fatal) else Exhausted
    }

    function Extract(): T
      requires Ok?
    {
      value
    }

    /** Forgets the value, keeping only whether and how the run ended. */
    function Status(): Outcome<()> {
      match this
      case Ok(_) => Ok(())
      case Fail(k) => Fail(k)
      case Exhausted => Exhausted
    }
  }
}
