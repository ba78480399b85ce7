/** Optional values, and the outcome of an operation that may fail with one of the program's error kinds. */
module Results {

  datatype Option<+T> = None | Some(value: T)

  /** `CheckpointError` stands for an invalid checkpoint, an error to which the program gives no kind. */
  datatype ErrorKind =
    | ConfigError | PermissionError | NotFoundError | ConflictError | ValidationError | ApprovalError | CheckpointError

  datatype Result<+T> = Ok(value: T) | Err(error: ErrorKind)
}
