/** The few Java notions the bag's contract is written in: references that may be null,
    the exceptions its operations throw, and a result that is either a value or one of them. */
module JavaLang {

  /** A Java reference to a value of type T: `null` or an object. */
  datatype Nullable<+T> = Null | NonNull(get: T)

  /** The exceptions the bag's operations throw. */
  datatype Error =
    | IllegalState          // iterator() when there is no source
    | UnsupportedOperation  // contains() and containsAll()
    | NullPointer           // a null collection or predicate argument, or closing an absent source
    | NoSuchElement         // next() on an exhausted iterator

  /** The outcome of a call that either returns a value or throws. */
  datatype Result<+R> = Success(value: R) | Failure(error: Error)
}
