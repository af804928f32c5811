/** The error channel of the transforms: a value, or the std::domain_error
    the source throws. */
module Results {

  datatype Result<T> = Success(value: T) | DomainError(message: string)
}
