/** The Python exceptions the modelled code raises, and a result type that carries them. */
module PyErrors {

  /** TypeError: an operand of the wrong type; ValueError: an argument outside the domain;
      ZeroDivisionError: a division by zero. */
  datatype Error = TypeError | ValueError | ZeroDivisionError

  /** Either the value the Python expression returns or the exception it raises. */
  datatype Result<T> = Ok(value: T) | Err(error: Error)
}
