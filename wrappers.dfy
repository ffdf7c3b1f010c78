/** The optional value used throughout the model: `None` stands for JavaScript's
    `undefined` where a property may be missing, and for a thrown exception where
    an evaluation may fail. It supports Dafny's `:-` so that a failure propagates,
    as an exception does in the source. */
module Wrappers {

  datatype Option<+T> = None | Some(value: T) {

    predicate IsFailure() {
      None?
    }

    function PropagateFailure<U>(): Option<U>
      requires None?
    {
      None
    }

    function Extract(): T
      requires Some?
    {
      value
    }
  }
}
