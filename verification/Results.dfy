/** The outcome of an operation that may raise an error with a message. */
module Results {

  datatype Result<T> = Ok(value: T) | Error(message: string)
}
