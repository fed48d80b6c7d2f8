/** Failure-compatible wrappers shared by the raster-pipeline model and the precompile model. */
module Results {

  /** An optional value; stands in for a possibly-null pointer. */
  datatype Option<+T> = None | Some(value: T)

  /** The build-time faults `finish()` reports instead of handing a malformed program to the interpreter. */
  datatype Fault =
    | UnbalancedStack(stack: nat)
    | UnboundLabel(labelId: nat)
    | SlotOutOfRange

  datatype Result<+T> = Ok(value: T) | Err(fault: Fault) {

    predicate IsFailure() {
      Err?
    }

    function PropagateFailure<U>(): Result<U>
      requires Err?
    {
      Err(fault)
    }

    function Extract(): T
      requires Ok?
    {
      value
    }
  }
}
