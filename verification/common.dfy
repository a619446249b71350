/** Result and failure types shared by every layer of the converter model. */
module Common {

  /** A value that may be absent, as Python's `None`. */
  datatype Option<+T> = None | Some(value: T)

  /** Why constructing an element failed. Each case is a constraint that the
      element library checks when an element object is created, or the
      attribute lookup that fails on a list's first child. */
  datatype Fault =
    | InvalidIdShort     // constraint AASd-002: idShort is [A-Za-z][A-Za-z0-9_]*
    | DuplicateIdShort   // constraint AASd-022: idShort unique among a collection's children
    | TypeMismatch       // constraint AASd-108: list child of another element type
    | ValueTypeMismatch  // constraint AASd-109: list child of another value type
    | MissingValueType   // the first list child has no `value_type` attribute

  /** The outcome of a conversion step: a value, or the fault that aborted it. */
  datatype Result<+T> = Ok(value: T) | Err(fault: Fault) {

    predicate IsFailure() {
      Err?
    }

    function PropagateFailure<U>(): Result<U>
      requires Err?
    {
      Err(fault)
    }

    function Extract(): T
      requires Ok?
    {
      value
    }
  }
}
