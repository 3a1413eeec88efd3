/** Two plain wrapper datatypes: Option stands for a Java reference that may be
    null (or an empty java.util.Optional), Result for a call that either returns
    a value or throws one of the service's checked exceptions. */
module Wrappers {

  datatype Option<+T> = None | Some(value: T)

  datatype Result<+T, +E> = Success(value: T) | Failure(error: E)
}
