/** The outcome of a geometric operation that may reject its input. */
module InputErrors {

  datatype Result<T> = Ok(value: T) | InputError
}
