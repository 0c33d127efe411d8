/** Outcomes shared by the harness model: Java's `null` becomes `Option`, and the
    exceptions the harness lets escape become the `Failure` side of `Result`. */
module Results {

  datatype Option<+T> = None | Some(value: T)

  /** The exceptions a test batch can end with. */
  datatype Error =
    | NumberFormatError(input: string)  // java.lang.NumberFormatException from `new Integer(...)`
    | AssertionError                    // java.lang.AssertionError thrown by the document validator
    | ResourceNotFound(path: string)    // the model resource could not be opened

  datatype Result<+T> = Success(value: T) | Failure(error: Error)
}
