/** Failure-compatible results of a render pass or of the type collector. */
module Results {
  import opened Json

  /** The failures the source can raise. */
  datatype Error =
    | ComponentNotFound(nodeType: Value)   // the registry cannot resolve a node type
    | TypeError(reason: string)        // a JavaScript TypeError on a malformed document

  datatype Option<+T> = None | Some(value: T)

  datatype Result<+T> = Ok(value: T) | Err(error: Error) {

    predicate IsFailure() {
      Err?
    }

    function PropagateFailure<U>(): Result<U>
      requires Err?
    {
      Err(error)
    }

    function Extract(): T
      requires Ok?
    {
      value
    }
  }
}
