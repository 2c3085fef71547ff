/** Optional values and results with an error, used for the evaluator's
    failure paths instead of thrown messages and sentinel zeros. */
module Results {

  datatype Option<T> = None | Some(value: T)

  datatype Result<T, E> = Success(value: T) | Failure(error: E)
}
