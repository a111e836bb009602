/** Error kinds and the failure-carrying result every fallible operation returns. */
module Core {

  /** The broad category of a failure; messages and offsets are not modelled. */
  datatype ErrorKind =
    | Io
    | Corruption
    | UnsupportedVersion
    | UnsupportedFeature
    | UnsupportedFrame
    | ResourceLimit
    | IncompleteTail
    | InvalidArgument
    | SchemaMismatch
    | WriterLocked
    | Poisoned
    | FileReplaced
    | FileTruncated
    | Internal

  datatype Option<+T> = None | Some(value: T)

  datatype Result<+T> = Ok(value: T) | Err(kind: ErrorKind) {
    predicate IsFailure() {
      Err?
    }

    function PropagateFailure<U>(): Result<U>
      requires Err?
    {
      Err(kind)
    }

    function Extract(): T
      requires Ok?
    {
      value
    }
  }

  /** Turn a check into a result that `:-` can propagate. */
  function Check(holds: bool, kind: ErrorKind): (r: Result<()>) {
    if holds then Ok(()) else Err(kind)
  }
}
