/** Optional values and results with an error, the two shapes the model uses
    for JavaScript's `undefined` and for exceptions. */
module Wrappers {

  datatype Option<+T> = None | Some(value: T) {
    function GetOr(default: T): T {
      match this
      case Some(v) => v
      case None => default
    }
  }

  datatype Result<+R, +E> = Success(value: R) | Failure(error: E)

  datatype Outcome<+E> = Pass | Fail(error: E)
}

/** The errors the commands extension and the document library raise. */
module Errors {

  datatype Failure =
    /** `throwIfNameNotUnique`: a command name was already registered. */
    | DuplicateCommandName(name: string)
    /** `forbiddenNames`: the name is reserved by the chain object. */
    | ForbiddenCommandName(name: string)
    /** The chained `dispatch` saw a transaction other than the shared one. */
    | ForeignTransactionInChain
    /** The editor state refused a transaction whose `before` is not its document. */
    | MismatchedTransaction
    /** A table entry that does not exist was called (`undefined` is not a function). */
    | NotAFunction(name: string)
}
